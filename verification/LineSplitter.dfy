/**
  Splitting formatted lines that become longer than the maximum code length.

  While a line is built up, ten positions are remembered where it could be split: for each kind
  of place the last one within the maximum length and the latest one beyond it ("pending").
*/
module LineSplitter {
  import opened Common

  datatype Kind = Semi | AndOr | Comma | Paren | WhiteSpace

  /** Whether the current block lets the line be split. */
  datatype BlockCheck = MayBreak | NotNow | Keep | KeepAndClear

  /** The properties of the innermost brace that matter here. */
  datatype BraceType = BraceType(
    isArray: bool,
    isNonInStatementArray: bool,
    isSingleLine: bool,
    isCommand: bool,
    isEmptyBlock: bool,
    isBreakBlock: bool)

  /**
    What the updates look at besides the formatted line itself.  `isInUnsplittable`: in a comment,
    quote, case label, preprocessor line, SQL, assembler code or template.
  */
  datatype Context = Context(
    nextChar: char,
    previousNonWSChar: char,
    currentChar: char,
    previousLineChar: Option<char>,
    isInExponent: bool,
    pointerSymbolFollows: bool,
    pointerAlignType: bool,
    referenceAlignType: bool,
    shouldBreakLineAfterLogical: bool,
    restOfLineIsShort: bool,
    isInUnsplittable: bool,
    braceType: BraceType,
    shouldBreakOneLineBlocks: bool)
  {
    /** May a one-line block be broken? */
    predicate IsOkToBreakBlock() {
      && !(braceType.isArray && braceType.isSingleLine)
      && !(braceType.isCommand && braceType.isEmptyBlock)
      && (!braceType.isSingleLine || braceType.isBreakBlock || shouldBreakOneLineBlocks)
    }

    function CheckBlock(): BlockCheck {
      if isInUnsplittable then NotNow
      else if !IsOkToBreakBlock() && currentChar != '{' then KeepAndClear
      else if braceType.isArray then (if braceType.isNonInStatementArray then Keep else KeepAndClear)
      else MayBreak
    }

    /** The operator follows a name or a closing bracket. */
    predicate FollowsName() {
      && previousLineChar.Some?
      && (IsLegalNameChar(previousLineChar.value) || previousLineChar.value in {')', ']'})
    }
  }

  predicate IsLegalNameChar(ch: char) {
    IsAlnum(ch) || ch == '.' || ch == '_'
  }

  predicate IsCharPotentialOperator(ch: char) {
    && '!' <= ch <= '~' && !IsAlnum(ch)
    && ch !in {'{', '}', '(', ')', '[', ']', ';', ',', '#', '\\', '\'', '"'}
  }

  // ---------- Places to split ----------

  /** A place of the given kind: just after, or just before, a character that makes it one. */
  predicate PlaceAt(kind: Kind, line: string, c: nat)
    requires 0 < c <= |line|
  {
    var before := line[c - 1];
    match kind
    case Semi => before == ';'
    case Comma => before == ','
    case Paren => before == '(' || (c < |line| && line[c] == '(')
    case AndOr =>
      before in {'|', '&', 'r', 'd'} || (c < |line| && (line[c] in {'|', '&', 'o', 'a'} || IsWhiteSpace(line[c])))
    case WhiteSpace =>
      before in {')', '=', ':'} || (c < |line| && (line[c] in {'=', ':', '+', '-', '?'} || IsWhiteSpace(line[c])))
  }

  /** A candidate is none (0) or a place of its kind within the line. */
  predicate IsCandidate(kind: Kind, line: string, c: nat) {
    c == 0 || (c <= |line| && PlaceAt(kind, line, c))
  }

  /** The candidate has kept its character: the same text follows it. */
  predicate SameCharacter(before: string, c: nat, after: string, c': nat) {
    c' == 0 || (c <= |before| && c' <= |after| && before[c..] == after[c'..])
  }

  lemma CandidateOfLongerLine(kind: Kind, line: string, more: string, c: nat)
    requires IsCandidate(kind, line, c)
    ensures IsCandidate(kind, line + more, c)
  {
  }

  function Minus(c: nat, n: nat): nat {
    if c > n then c - n else 0
  }

  lemma CandidateOfSuffix(kind: Kind, line: string, c: nat, cut: nat)
    requires cut <= |line| && IsCandidate(kind, line, c)
    ensures IsCandidate(kind, line[cut..], Minus(c, cut))
    ensures SameCharacter(line, c, line[cut..], Minus(c, cut))
  {
    if c > cut {
      assert line[cut..][c - cut..] == line[c..];
      assert line[cut..][c - cut - 1] == line[c - 1];
      assert c < |line| ==> line[cut..][c - cut] == line[c];
    }
  }

  /** The text without its blanks: what the formatter may never lose. */
  function NonBlank(s: string): string {
    if s == [] then [] else
      var rest := NonBlank(s[1..]);
      if IsWhiteSpace(s[0]) then rest else [s[0]] + rest
  }

  lemma {:induction false} NonBlankAppend(a: string, b: string)
    ensures NonBlank(a + b) == NonBlank(a) + NonBlank(b)
    decreases |a|
  {
    if a == [] {
      assert a + b == b;
    } else {
      NonBlankAppend(a[1..], b);
      assert (a + b)[1..] == a[1..] + b;
    }
  }

  lemma {:induction false} BlanksVanish(s: string)
    requires forall i :: 0 <= i < |s| ==> IsWhiteSpace(s[i])
    ensures NonBlank(s) == []
    decreases |s|
  {
    if s != [] {
      BlanksVanish(s[1..]);
    }
  }

  /** A line is a front, blanks, and a back. */
  ghost predicate CutInto(line: string, front: string, back: string) {
    && |front| + |back| <= |line| && front <= line && line[|line| - |back|..] == back
    && forall i :: |front| <= i < |line| - |back| ==> IsWhiteSpace(line[i])
  }

  lemma CutAtBlanks(line: string, splitPoint: nat)
    requires splitPoint <= |line|
    ensures CutInto(line, line[..splitPoint], line[splitPoint + Leading(line[splitPoint..])..])
  {
    var rest := line[splitPoint..];
    LeadingAreBlanks(rest);
    forall i | splitPoint <= i < splitPoint + Leading(rest) ensures IsWhiteSpace(line[i]) {
      assert line[i] == rest[i - splitPoint];
    }
  }

  /** Both lines after `text` was appended: a ready line that was not read yet is not touched. */
  ghost predicate LinesAfter(
    line: string, ready: string, wasReady: bool, broken: bool, text: string,
    line': string, ready': string, isReady: bool)
  {
    if broken then isReady && ready' == line && line' == text
    else if wasReady then isReady && ready' == ready && line' == line + text
    else if isReady then CutInto(line + text, ready', line')
    else line' == line + text
  }

  /** One candidate of each kind. */
  datatype SplitPoints = SplitPoints(semi: nat, andOr: nat, comma: nat, paren: nat, whiteSpace: nat) {
    function At(kind: Kind): nat {
      match kind
      case Semi => semi
      case AndOr => andOr
      case Comma => comma
      case Paren => paren
      case WhiteSpace => whiteSpace
    }

    function With(kind: Kind, c: nat): SplitPoints {
      match kind
      case Semi => this.(semi := c)
      case AndOr => this.(andOr := c)
      case Comma => this.(comma := c)
      case Paren => this.(paren := c)
      case WhiteSpace => this.(whiteSpace := c)
    }
  }

  const NO_SPLIT_POINTS := SplitPoints(0, 0, 0, 0, 0)

  ghost predicate AreCandidates(line: string, p: SplitPoints) {
    && IsCandidate(Semi, line, p.semi) && IsCandidate(AndOr, line, p.andOr) && IsCandidate(Comma, line, p.comma)
    && IsCandidate(Paren, line, p.paren) && IsCandidate(WhiteSpace, line, p.whiteSpace)
  }

  lemma PointsOfLongerLine(line: string, more: string, p: SplitPoints)
    requires AreCandidates(line, p)
    ensures AreCandidates(line + more, p)
  {
    CandidateOfLongerLine(Semi, line, more, p.semi);
    CandidateOfLongerLine(AndOr, line, more, p.andOr);
    CandidateOfLongerLine(Comma, line, more, p.comma);
    CandidateOfLongerLine(Paren, line, more, p.paren);
    CandidateOfLongerLine(WhiteSpace, line, more, p.whiteSpace);
  }

  function MinusAll(p: SplitPoints, n: nat): SplitPoints {
    SplitPoints(Minus(p.semi, n), Minus(p.andOr, n), Minus(p.comma, n), Minus(p.paren, n), Minus(p.whiteSpace, n))
  }

  /** Every candidate that survives still points to the same character. */
  ghost predicate SameCharacters(before: string, p: SplitPoints, after: string, p': SplitPoints) {
    forall kind :: SameCharacter(before, p.At(kind), after, p'.At(kind))
  }

  lemma PointsOfSuffix(line: string, p: SplitPoints, cut: nat)
    requires cut <= |line| && AreCandidates(line, p)
    ensures AreCandidates(line[cut..], MinusAll(p, cut))
    ensures SameCharacters(line, p, line[cut..], MinusAll(p, cut))
  {
    CandidateOfSuffix(Semi, line, p.semi, cut);
    CandidateOfSuffix(AndOr, line, p.andOr, cut);
    CandidateOfSuffix(Comma, line, p.comma, cut);
    CandidateOfSuffix(Paren, line, p.paren, cut);
    CandidateOfSuffix(WhiteSpace, line, p.whiteSpace, cut);
  }

  /** A place to register: within the maximum length (`fits`) or pending. */
  datatype Place = Place(kind: Kind, pos: nat, fits: bool)

  function Registered(max: SplitPoints, pending: SplitPoints, place: Option<Place>): (SplitPoints, SplitPoints) {
    match place
    case None => (max, pending)
    case Some(Place(kind, pos, fits)) => if fits then (max.With(kind, pos), pending) else (max, pending.With(kind, pos))
  }

  /** An update: nothing in a line to be kept; otherwise it depends on the block. */
  function Updated(max: SplitPoints, pending: SplitPoints, keep: bool, ctx: Context, place: Option<Place>)
    : (SplitPoints, SplitPoints)
  {
    if keep then (max, pending)
    else match ctx.CheckBlock()
      case MayBreak => Registered(max, pending, place)
      case KeepAndClear => (NO_SPLIT_POINTS, NO_SPLIT_POINTS)
      case _ => (max, pending)
  }

  /** Next to a comment, a brace or a block paren nothing is a place to split. */
  predicate NoSplitHere(c: char, ctx: Context) {
    || ctx.nextChar == '/'
    || '{' in {c, ctx.previousNonWSChar, ctx.nextChar, ctx.currentChar}
    || '}' in {c, ctx.previousNonWSChar, ctx.nextChar, ctx.currentChar}
    || c in {'[', ']'} || ctx.nextChar in {'[', ']'} || ctx.previousNonWSChar == '['
  }

  /** The place that the character at the end of a line of the given length makes. */
  function CharPlace(c: char, ctx: Context, length: nat, maxLength: nat): Option<Place>
    requires length > 0
  {
    if NoSplitHere(c, ctx) then None
    else if IsWhiteSpace(c) then
      var beforeType := !IsCharPotentialOperator(ctx.previousNonWSChar)
        && ((ctx.nextChar == '*' && ctx.pointerAlignType) || (ctx.nextChar == '&' && ctx.referenceAlignType));
      if ctx.nextChar in {'(', ')', ':'} || ctx.currentChar in {'(', ')'} || ctx.previousNonWSChar == '(' || beforeType
      then None else Some(Place(WhiteSpace, length - 1, length - 1 <= maxLength))
    else match c
      case ')' =>
        if ctx.nextChar in {')', ' ', ';', ',', '.'} || (ctx.nextChar == '-' && ctx.pointerSymbolFollows) then None
        else Some(Place(WhiteSpace, length, length <= maxLength))
      case ',' => Some(Place(Comma, length, length <= maxLength))
      case '(' =>
        if ctx.nextChar in {')', '(', '"', '\''} then None
        else Some(Place(Paren, if IsCharPotentialOperator(ctx.previousNonWSChar) then length - 1 else length,
                        length <= maxLength))
      case ';' => if ctx.nextChar in {' ', '}', '/'} then None else Some(Place(Semi, length, length <= maxLength))
      case _ => None
  }

  /** The place that an operator at the end of the line makes. */
  function OperatorPlace(sequence: string, ctx: Context, line: string, maxLength: nat): Option<Place>
    requires sequence != "" && |sequence| <= |line|
  {
    var length := |line|;
    if ctx.nextChar == '/' then None
    else if IsLogical(sequence) then
      var before := length - |sequence|;
      var pos := if ctx.shouldBreakLineAfterLogical then length
                 else if before > 0 && IsWhiteSpace(line[before - 1]) then before - 1 else before;
      Some(Place(AndOr, pos, pos <= maxLength))
    else if IsComparison(sequence) then Some(Place(WhiteSpace, length, length <= maxLength))
    else if IsArithmetic(sequence) then
      if (sequence != "?" && ctx.isInExponent) || !(ctx.FollowsName() || ctx.previousLineChar == Some('"')) then None
      else Some(Place(WhiteSpace, length - 1, length - 1 <= maxLength))
    else if IsAssignment(sequence) && (ctx.previousNonWSChar == ']' || ctx.FollowsName()) then
      Some(Place(WhiteSpace, if length < maxLength then length else length - 1,
                 (if ctx.previousNonWSChar == ']' then length - 1 else length) <= maxLength))
    else None
  }

  // ---------- What makes a place to split, kind by kind ----------

  /** Which blocks let a line be split: none in an array, and no one-line block unless it may be broken. */
  lemma WhichBlocksBreak(ctx: Context)
    ensures var brace := ctx.braceType;
            var oneLine := brace.isSingleLine && !brace.isBreakBlock && !ctx.shouldBreakOneLineBlocks;
            var whole := oneLine || (brace.isCommand && brace.isEmptyBlock) || (brace.isArray && brace.isSingleLine);
            && (ctx.CheckBlock() == NotNow <==> ctx.isInUnsplittable)
            && (ctx.CheckBlock() == MayBreak <==>
                !ctx.isInUnsplittable && !brace.isArray && (!whole || ctx.currentChar == '{'))
            && (ctx.CheckBlock() == Keep <==>
                !ctx.isInUnsplittable && brace.isArray && brace.isNonInStatementArray
                && (!whole || ctx.currentChar == '{'))
  {
  }

  /** An update sets the one point that the place is for, and no other; a line to be kept has none set. */
  lemma WhatIsRegistered(
    max: SplitPoints, pending: SplitPoints, keep: bool, ctx: Context, place: Option<Place>, k: Kind)
    ensures var (max', pending') := Updated(max, pending, keep, ctx, place);
            var here := !keep && ctx.CheckBlock() == MayBreak && place.Some? && place.value.kind == k;
            && (keep || ctx.CheckBlock() != KeepAndClear ==>
                  && max'.At(k) == (if here && place.value.fits then place.value.pos else max.At(k))
                  && pending'.At(k) == (if here && !place.value.fits then place.value.pos else pending.At(k)))
            && (!keep && ctx.CheckBlock() == KeepAndClear ==> max'.At(k) == pending'.At(k) == 0)
  {
  }

  /** The ASCII punctuation that operators are made of. */
  lemma OperatorChars(c: char)
    ensures IsCharPotentialOperator(c) <==> c in "!$%&*+-./:<=>?@^_`|~"
  {
  }

  /** For each kind, which last character makes a place of it, beside which neighbours, and where. */
  lemma WhichCharsSplit(c: char, ctx: Context, n: nat, maxLength: nat)
    requires n > 0
    ensures var place := CharPlace(c, ctx, n, maxLength);
            var next, previous := ctx.nextChar, ctx.previousNonWSChar;
            var free := && next != '/' && {c, next, previous, ctx.currentChar} !! {'{', '}'}
                        && {c, next} !! {'[', ']'} && previous != '[';
            var open := free && c == '(' && next !in {')', '(', '"', '\''};
            && (place == Some(Place(Comma, n, n <= maxLength)) <==> free && c == ',')
            && (place == Some(Place(Semi, n, n <= maxLength)) <==> free && c == ';' && next != ' ')
            && (place == Some(Place(Paren, n, n <= maxLength)) <==> open && !IsCharPotentialOperator(previous))
            && (place == Some(Place(Paren, n - 1, n <= maxLength)) <==> open && IsCharPotentialOperator(previous))
            && (place == Some(Place(WhiteSpace, n, n <= maxLength)) <==>
                  && free && c == ')' && next !in {')', ' ', ';', ',', '.'}
                  && !(next == '-' && ctx.pointerSymbolFollows))
            && (place == Some(Place(WhiteSpace, n - 1, n - 1 <= maxLength)) <==>
                  && free && c in {' ', '\t'} && next !in {'(', ')', ':'} && ctx.currentChar !in {'(', ')'}
                  && previous != '('
                  && (next == '*' && ctx.pointerAlignType ==> IsCharPotentialOperator(previous))
                  && (next == '&' && ctx.referenceAlignType ==> IsCharPotentialOperator(previous)))
            && (c !in {',', ';', '(', ')', ' ', '\t'} ==> place == None)
            && (place.Some? ==> place.value.pos in {n - 1, n} && place.value.kind != AndOr)
  {
  }

  /** For each class of operators, whether it makes a place, and where. */
  lemma WhichOperatorsSplit(sequence: string, ctx: Context, line: string, maxLength: nat)
    requires sequence != "" && |sequence| <= |line|
    ensures var place, n, start := OperatorPlace(sequence, ctx, line, maxLength), |line|, |line| - |sequence|;
            var blank := if start > 0 && line[start - 1] in {' ', '\t'} then 1 else 0;
            var andOr := if ctx.shouldBreakLineAfterLogical then n else start - blank;
            var last := ctx.previousLineChar;
            var name := last.Some? && (IsAlnum(last.value) || last.value in {'.', '_', ')', ']'});
            && (ctx.nextChar == '/' ==> place == None)
            && (ctx.nextChar != '/' && sequence in {"||", "&&", "or", "and"} ==>
                  place == Some(Place(AndOr, andOr, andOr <= maxLength)))
            && (ctx.nextChar != '/' && sequence in {"==", "!=", ">=", "<="} ==>
                  place == Some(Place(WhiteSpace, n, n <= maxLength)))
            && (ctx.nextChar != '/' && sequence in {"+", "-", "?"} ==>
                  place == if (name || last == Some('"')) && (sequence == "?" || !ctx.isInExponent)
                           then Some(Place(WhiteSpace, n - 1, n - 1 <= maxLength)) else None)
            && (ctx.nextChar != '/' && sequence in {"=", ":"} && ctx.previousNonWSChar == ']' ==>
                  place == Some(Place(WhiteSpace, if n < maxLength then n else n - 1, n - 1 <= maxLength)))
            && (ctx.nextChar != '/' && sequence in {"=", ":"} && ctx.previousNonWSChar != ']' ==>
                  place == if name then Some(Place(WhiteSpace, if n < maxLength then n else n - 1, n <= maxLength))
                           else None)
            && (sequence !in {"||", "&&", "or", "and", "==", "!=", ">=", "<=", "+", "-", "?", "=", ":"} ==>
                  place == None)
  {
  }

  /** A place lies next to the character or operator, is of its kind, and fits only within the maximum length. */
  lemma CharPlaceIsCandidate(line: string, ctx: Context, maxLength: nat)
    requires line != ""
    ensures var place := CharPlace(line[|line| - 1], ctx, |line|, maxLength);
            place.Some? ==>
              && IsCandidate(place.value.kind, line, place.value.pos)
              && |line| - 1 <= place.value.pos <= |line|
              && (if place.value.fits then place.value.pos <= maxLength else place.value.pos >= maxLength)
  {
    hide IsCandidate;
    LastCharPlaces(line);
  }

  lemma OperatorPlaceIsCandidate(line: string, sequence: string, ctx: Context, maxLength: nat)
    requires sequence != "" && EndsWith(line, sequence)
    ensures var place := OperatorPlace(sequence, ctx, line, maxLength);
            place.Some? ==>
              && IsCandidate(place.value.kind, line, place.value.pos)
              && |line| - |sequence| - 1 <= place.value.pos <= |line|
              && (if place.value.fits then place.value.pos <= maxLength else place.value.pos >= maxLength)
  {
    hide IsCandidate, IsLogical, IsComparison, IsArithmetic, IsAssignment, EndsWith;
    OperatorPlaces(line, sequence);
  }

  // ---------- When a line is split ----------

  const MIN_CODE_LENGTH := 10

  /**
    None of the candidates within the maximum length makes the first line long enough.  A comma
    or paren that is far enough along for a short maximum length is taken before looking at this.
  */
  predicate NoneLongEnough(max: SplitPoints, length: nat) {
    && max.andOr < MIN_CODE_LENGTH && max.semi < MIN_CODE_LENGTH && max.comma < MIN_CODE_LENGTH
    && (max.comma as real >= length as real * 0.3
        || (max.paren < MIN_CODE_LENGTH
            && (max.whiteSpace < MIN_CODE_LENGTH || max.paren as real >= length as real * 0.7)))
  }

  /** There is a place to split a line of `n` characters. */
  ghost predicate CanSplit(max: SplitPoints, pending: SplitPoints, n: nat, length: nat) {
    !NoneLongEnough(max, length) || exists k :: 0 < pending.At(k) < n
  }

  /** All candidates within the maximum length are before the end of the line. */
  ghost predicate InsideLine(max: SplitPoints, n: nat) {
    forall kind :: max.At(kind) < n
  }

  /** From a maximum length of 31 on any candidate at 10 or beyond is enough. */
  lemma FromLength31(max: SplitPoints, length: nat)
    requires length >= 31
    ensures NoneLongEnough(max, length) <==> forall k :: max.At(k) < MIN_CODE_LENGTH
  {
    AllKinds(max);
  }

  /** For every length: it is not enough exactly when a too near comma or paren is taken instead. */
  lemma NearerTakenInstead(max: SplitPoints, length: nat)
    ensures NoneLongEnough(max, length) <==>
            || (forall k :: max.At(k) < MIN_CODE_LENGTH)
            || (&& max.andOr < MIN_CODE_LENGTH && max.semi < MIN_CODE_LENGTH && max.comma < MIN_CODE_LENGTH
                && (max.comma as real >= length as real * 0.3
                    || (max.paren < MIN_CODE_LENGTH && max.paren as real >= length as real * 0.7)))
  {
    AllKinds(max);
  }

  lemma AllKinds(p: SplitPoints)
    ensures p.At(Semi) == p.semi && p.At(AndOr) == p.andOr && p.At(Comma) == p.comma
    ensures p.At(Paren) == p.paren && p.At(WhiteSpace) == p.whiteSpace
  {
  }

  /** A maximum length of 30, a comma at 9 and white space at 20: the white space is passed over. */
  lemma NotFromLength30()
    ensures var max := SplitPoints(0, 0, 9, 0, 20);
            NoneLongEnough(max, 30) && max.At(WhiteSpace) >= MIN_CODE_LENGTH && InsideLine(max, 31)
            && !CanSplit(max, NO_SPLIT_POINTS, 31, 30)
  {
    AllKinds(SplitPoints(0, 0, 9, 0, 20));
    AllKinds(NO_SPLIT_POINTS);
  }

  /** Where the line may not be split the place does not matter. */
  lemma PlaceDoesNotMatter(max: SplitPoints, pending: SplitPoints, keep: bool, ctx: Context, place: Option<Place>)
    ensures keep || ctx.CheckBlock() != MayBreak ==>
              Updated(max, pending, keep, ctx, place) == Updated(max, pending, keep, ctx, None)
    ensures !keep && ctx.CheckBlock() == MayBreak ==> Updated(max, pending, keep, ctx, None) == (max, pending)
  {
  }

  /** After an update of a line longer than the maximum length no candidate within is at the end. */
  lemma UpdatedIsInside(
    max: SplitPoints, pending: SplitPoints, keep: bool, ctx: Context, place: Option<Place>, n: nat, length: nat)
    requires InsideLine(max, n) && n > length
    requires place.Some? && place.value.fits ==> place.value.pos <= length
    ensures InsideLine(Updated(max, pending, keep, ctx, place).0, n)
  {
    var p := Updated(max, pending, keep, ctx, place).0;
    forall kind ensures p.At(kind) < n {
      assert max.At(kind) < n;
    }
  }

  /** The chosen split point is strictly inside the line exactly when there is a place to split. */
  lemma ChoiceDecides(max: SplitPoints, pending: SplitPoints, splitPoint: nat, n: nat, length: nat)
    requires InsideLine(max, n)
    requires if NoneLongEnough(max, length)
             then (splitPoint > 0 ==> exists k :: splitPoint == pending.At(k))
                  && (splitPoint == 0 ==> forall k :: pending.At(k) == 0)
                  && forall k :: pending.At(k) > 0 ==> splitPoint <= pending.At(k)
             else splitPoint >= MIN_CODE_LENGTH && exists k :: splitPoint == max.At(k)
    ensures 0 < splitPoint < n <==> CanSplit(max, pending, n, length)
  {
    hide NoneLongEnough;
  }

  /**
    The points that an update gives are carried through a split, if there is one.  A split that need
    not wait for a pending candidate leaves at least ten characters, up to a candidate.
  */
  ghost predicate PointsAfter(
    line: string, points: (SplitPoints, SplitPoints), split: bool, maxLength: nat,
    line': string, ready': string, max': SplitPoints, pending': SplitPoints)
  {
    if split then
      && pending' == NO_SPLIT_POINTS && SameCharacters(line, Promoted(points.0, points.1), line', max')
      && (!NoneLongEnough(points.0, maxLength) ==>
            |ready'| >= MIN_CODE_LENGTH && exists k :: |ready'| == points.0.At(k))
    else (max', pending') == points
  }

  lemma PointsUnsplit(line: string, points: (SplitPoints, SplitPoints), maxLength: nat, ready: string)
    ensures PointsAfter(line, points, false, maxLength, line, ready, points.0, points.1)
  {
  }

  function Limit(maxLength: Option<nat>): nat {
    match maxLength case None => 0 case Some(n) => n
  }

  /** A line that became longer than the maximum length and has a place to be split at. */
  ghost predicate SplitsAt(points: (SplitPoints, SplitPoints), n: nat, maxLength: Option<nat>) {
    maxLength.Some? && n > maxLength.value && CanSplit(points.0, points.1, n, maxLength.value)
  }

  lemma LongerLineInside(line: string, max: SplitPoints, n: nat)
    requires AreCandidates(line, max) && |line| < n
    ensures InsideLine(max, n)
  {
    AllKinds(max);
  }

  /** After a split a pending candidate takes the place of the one before it. */
  function Promoted(max: SplitPoints, pending: SplitPoints): SplitPoints {
    SplitPoints(
      if pending.semi > 0 then pending.semi else max.semi,
      if pending.andOr > 0 then pending.andOr else max.andOr,
      if pending.comma > 0 then pending.comma else max.comma,
      if pending.paren > 0 then pending.paren else max.paren,
      if pending.whiteSpace > 0 then pending.whiteSpace else max.whiteSpace)
  }

  // ---------- The formatter's line ----------

  class Formatter {
    const maxCodeLength: Option<nat>
    var formattedLine: string
    var readyFormattedLine: string
    var isLineReady: bool
    var isInLineBreak: bool
    var shouldKeepLineUnbroken: bool
    var max: SplitPoints
    var pending: SplitPoints
    // the text appended and the lines read so far
    ghost var appended: string
    ghost var delivered: string

    /** No character but blanks is lost: read lines, the ready line and the current line are all there is. */
    ghost predicate NothingLost()
      reads this
    {
      NonBlank(appended) ==
        NonBlank(delivered) + NonBlank(if isLineReady then readyFormattedLine else "") + NonBlank(formattedLine)
    }

    ghost predicate Candidates()
      reads this
    {
      AreCandidates(formattedLine, max) && AreCandidates(formattedLine, pending)
    }

    /** A break now would overwrite a ready line with text in it that was not read. */
    ghost predicate BreakLoses()
      reads this
    {
      isLineReady && NonBlank(readyFormattedLine) != ""
    }

    constructor (maxCodeLength: Option<nat>)
      ensures Candidates() && NothingLost() && this.maxCodeLength == maxCodeLength
      ensures formattedLine == "" && !isLineReady
    {
      this.maxCodeLength := maxCodeLength;
      formattedLine, readyFormattedLine, isLineReady, isInLineBreak := "", "", false, false;
      shouldKeepLineUnbroken := false;
      max, pending := NO_SPLIT_POINTS, NO_SPLIT_POINTS;
      appended, delivered := "", "";
    }

    method ClearFormattedLineSplitPoints()
      modifies this`max, this`pending
      ensures max == pending == NO_SPLIT_POINTS
    {
      max, pending := NO_SPLIT_POINTS, NO_SPLIT_POINTS;
    }

    /** Is it OK to split the line?  A block that must not be broken also forgets the candidates. */
    method IsOkToSplitFormattedLine(ctx: Context) returns (ok: bool)
      requires Candidates()
      modifies this`max, this`pending, this`shouldKeepLineUnbroken
      ensures Candidates() && NothingLost() == old(NothingLost())
      ensures ok <==> !old(shouldKeepLineUnbroken) && ctx.CheckBlock() == MayBreak
      ensures shouldKeepLineUnbroken == (old(shouldKeepLineUnbroken) || ctx.CheckBlock() in {Keep, KeepAndClear})
      ensures (max, pending) == Updated(old(max), old(pending), old(shouldKeepLineUnbroken), ctx, None)
    {
      hide NonBlank, IsCandidate;
      if shouldKeepLineUnbroken || ctx.isInUnsplittable {
        return false;
      }
      NoneAreCandidates(formattedLine);
      if !ctx.IsOkToBreakBlock() && ctx.currentChar != '{' {
        shouldKeepLineUnbroken := true;
        ClearFormattedLineSplitPoints();
        return false;
      }
      if ctx.braceType.isArray {
        shouldKeepLineUnbroken := true;
        if !ctx.braceType.isNonInStatementArray {
          ClearFormattedLineSplitPoints();
        }
        return false;
      }
      return true;
    }

    /** Move the formatted line to the ready line, whether that was read or not. */
    method BreakLine(isSplitLine: bool)
      modifies this`formattedLine, this`readyFormattedLine, this`isLineReady, this`isInLineBreak, this`max, this`pending
      ensures readyFormattedLine == old(formattedLine) && isLineReady && !isInLineBreak && formattedLine == ""
      ensures if isSplitLine then max == old(max) && pending == old(pending) else max == pending == NO_SPLIT_POINTS
      ensures old(NothingLost()) ==> (NothingLost() <==> !old(BreakLoses()))
      ensures !old(isLineReady) ==> NothingLost() == old(NothingLost())
    {
      hide NonBlank;
      LostWith(NonBlank(delivered), NonBlank(readyFormattedLine), NonBlank(formattedLine));
      EmptyParts(NonBlank(delivered), NonBlank(formattedLine));
      isLineReady := true;
      isInLineBreak := false;
      readyFormattedLine := formattedLine;
      formattedLine := "";
      if !isSplitLine {
        ClearFormattedLineSplitPoints();
      }
      EmptyParts(NonBlank(delivered), NonBlank(readyFormattedLine));
    }

    /** The reader takes the ready line. */
    method NextLine() returns (line: string)
      requires Candidates() && isLineReady
      modifies this`isLineReady, this`delivered
      ensures Candidates() && NothingLost() == old(NothingLost()) && line == readyFormattedLine && !isLineReady
      ensures delivered == old(delivered) + line
    {
      line := readyFormattedLine;
      isLineReady := false;
      delivered := delivered + line;
      NonBlankAppend(old(delivered), line);
      EmptyParts(NonBlank(delivered), NonBlank(formattedLine));
    }

    /** The first pending candidate, or 0. */
    method FirstPending() returns (splitPoint: nat)
      ensures splitPoint > 0 ==> exists k :: splitPoint == pending.At(k)
      ensures forall k :: pending.At(k) > 0 ==> 0 < splitPoint <= pending.At(k)
    {
      AllKinds(pending);
      splitPoint := 0;
      if pending.semi > 0 {
        splitPoint := pending.semi;
      }
      if pending.andOr > 0 && (splitPoint == 0 || pending.andOr < splitPoint) {
        splitPoint := pending.andOr;
      }
      if pending.comma > 0 && (splitPoint == 0 || pending.comma < splitPoint) {
        splitPoint := pending.comma;
      }
      if pending.paren > 0 && (splitPoint == 0 || pending.paren < splitPoint) {
        splitPoint := pending.paren;
      }
      if pending.whiteSpace > 0 && (splitPoint == 0 || pending.whiteSpace < splitPoint) {
        splitPoint := pending.whiteSpace;
      }
    }

    /** The position to split at: one of the candidates, or 0 when there is none good enough. */
    method FindFormattedLineSplitPoint(restOfLineIsShort: bool) returns (splitPoint: nat)
      requires maxCodeLength.Some? && AreCandidates(formattedLine, max)
      ensures splitPoint == 0 || (exists k :: splitPoint == max.At(k)) || (exists k :: splitPoint == pending.At(k))
      ensures 0 < splitPoint < 10 ==> exists k :: splitPoint == pending.At(k)
      // the preferred ones, unless too much would remain
      ensures max.andOr >= 10 && !(restOfLineIsShort && |formattedLine| - max.andOr > maxCodeLength.value) ==>
                splitPoint == max.andOr
      ensures max.andOr < 10 <= max.semi && !(restOfLineIsShort && |formattedLine| - max.semi > maxCodeLength.value) ==>
                splitPoint == max.semi
      ensures max.andOr < 10 && max.semi < 10 <= max.comma && max.comma as real >= maxCodeLength.value as real * 0.3
              && !(restOfLineIsShort && |formattedLine| - max.comma > maxCodeLength.value) ==>
                splitPoint == max.comma
      // the last of comma, paren and white space; a paren or comma that is far enough along goes first
      ensures max.andOr < 10 && max.semi < 10 && max.comma > max.paren && max.comma > max.whiteSpace && max.comma >= 10
              && !(restOfLineIsShort && |formattedLine| - max.comma > maxCodeLength.value) ==>
                splitPoint == max.comma
      ensures max.andOr < 10 && max.semi < 10 <= max.paren && max.comma as real < maxCodeLength.value as real * 0.3
              && max.comma <= max.paren
              && (max.paren > max.whiteSpace || max.paren as real >= maxCodeLength.value as real * 0.7)
              && !(restOfLineIsShort && |formattedLine| - max.paren > maxCodeLength.value) ==>
                splitPoint == max.paren
      ensures max.andOr < 10 && max.semi < 10 <= max.whiteSpace
              && max.comma as real < maxCodeLength.value as real * 0.3 && max.comma <= max.whiteSpace
              && max.paren <= max.whiteSpace && max.paren as real < maxCodeLength.value as real * 0.7
              && !(restOfLineIsShort && |formattedLine| - max.whiteSpace > maxCodeLength.value) ==>
                splitPoint == max.whiteSpace
      // with a short rest too much is left only if no paren and no much later white space is left out
      ensures restOfLineIsShort && |formattedLine| - splitPoint > maxCodeLength.value
              && !NoneLongEnough(max, maxCodeLength.value) ==>
                max.paren <= splitPoint && max.whiteSpace <= splitPoint + 3
      // none is good enough; and the first of the pending ones
      ensures splitPoint == 0 <==> NoneLongEnough(max, maxCodeLength.value) && forall k :: pending.At(k) == 0
      ensures if NoneLongEnough(max, maxCodeLength.value)
              then (splitPoint > 0 ==> exists k :: splitPoint == pending.At(k))
                   && forall k :: pending.At(k) > 0 ==> splitPoint <= pending.At(k)
              else splitPoint >= MIN_CODE_LENGTH && exists k :: splitPoint == max.At(k)
    {
      var minCodeLength := MIN_CODE_LENGTH;
      var length := maxCodeLength.value;
      AllKinds(max);
      splitPoint := max.semi;
      if max.andOr >= minCodeLength {
        splitPoint := max.andOr;
      }
      if splitPoint < minCodeLength {
        splitPoint := max.whiteSpace;
        // use the paren instead if it is long enough
        if max.paren > splitPoint || max.paren as real >= length as real * 0.7 {
          splitPoint := max.paren;
        }
        // use the comma instead if it is long enough
        if max.comma > splitPoint || max.comma as real >= length as real * 0.3 {
          splitPoint := max.comma;
        }
      }
      if splitPoint < minCodeLength {
        splitPoint := FirstPending();
      } else if |formattedLine| - splitPoint > length {
        // the remaining line is too long: find a new split point if the input line ends here
        if restOfLineIsShort {
          // don't move from before a conditional to after
          if max.whiteSpace > splitPoint + 3 {
            splitPoint := max.whiteSpace;
          }
          if max.paren > splitPoint {
            splitPoint := max.paren;
          }
        }
      }
    }
  
    method AdjustMaxSplitPoints(splitPoint: nat)
      modifies this`max, this`pending
      ensures max == MinusAll(Promoted(old(max), old(pending)), splitPoint) && pending == NO_SPLIT_POINTS
    {
      max := max.(andOr := Minus(max.andOr, splitPoint));
      max := max.(semi := Minus(max.semi, splitPoint));
      max := max.(comma := Minus(max.comma, splitPoint));
      max := max.(paren := Minus(max.paren, splitPoint));
      max := max.(whiteSpace := Minus(max.whiteSpace, splitPoint));
      hide Minus;
      if pending.semi > 0 {
        max := max.(semi := Minus(pending.semi, splitPoint));
        pending := pending.(semi := 0);
      }
      if pending.andOr > 0 {
        max := max.(andOr := Minus(pending.andOr, splitPoint));
        pending := pending.(andOr := 0);
      }
      if pending.comma > 0 {
        max := max.(comma := Minus(pending.comma, splitPoint));
        pending := pending.(comma := 0);
      }
      if pending.paren > 0 {
        max := max.(paren := Minus(pending.paren, splitPoint));
        pending := pending.(paren := 0);
      }
      if pending.whiteSpace > 0 {
        max := max.(whiteSpace := Minus(pending.whiteSpace, splitPoint));
        pending := pending.(whiteSpace := 0);
      }
    }

    /** Don't begin the new line with blanks, and don't keep a line of nothing but blanks. */
    method EraseLeadingBlanks()
      requires AreCandidates(formattedLine, max) && pending == NO_SPLIT_POINTS
      modifies this`formattedLine, this`max, this`pending
      ensures var n := Leading(old(formattedLine));
              formattedLine == old(formattedLine)[n..] && max == MinusAll(old(max), n) && pending == NO_SPLIT_POINTS
    {
      var firstText := Leading(formattedLine);
      if firstText == |formattedLine| && |formattedLine| > 0 {
        formattedLine := "";
        ClearFormattedLineSplitPoints();
      } else if firstText > 0 {
        formattedLine := formattedLine[firstText..];
        max := max.(semi := Minus(max.semi, firstText));
        max := max.(andOr := Minus(max.andOr, firstText));
        max := max.(comma := Minus(max.comma, firstText));
        max := max.(paren := Minus(max.paren, firstText));
        max := max.(whiteSpace := Minus(max.whiteSpace, firstText));
      }
    }

    method SplitAt(splitPoint: nat)
      requires Candidates() && !isLineReady && 0 < splitPoint < |formattedLine|
      modifies this`formattedLine, this`readyFormattedLine, this`isLineReady, this`isInLineBreak, this`max, this`pending
      ensures isLineReady && readyFormattedLine == old(formattedLine)[..splitPoint]
      ensures var cut := splitPoint + Leading(old(formattedLine)[splitPoint..]);
              && formattedLine == old(formattedLine)[cut..]
              && max == MinusAll(Promoted(old(max), old(pending)), cut)
      ensures pending == NO_SPLIT_POINTS
    {
      hide IsCandidate, SameCharacters, NonBlank, Leading;
      ghost var line, best := formattedLine, Promoted(max, pending);
      PromotedAreCandidates(line, max, pending);
      var splitLine := formattedLine[splitPoint..];
      formattedLine := formattedLine[..splitPoint];
      BreakLine(true);
      formattedLine := splitLine;
      AdjustMaxSplitPoints(splitPoint);
      PointsOfSuffix(line, best, splitPoint);
      EraseLeadingBlanks();
    }

    /** The split itself; `blanks` are dropped. */
    method SplitKeeping(splitPoint: nat) returns (ghost blanks: string)
      requires Candidates() && !isLineReady && 0 < splitPoint < |formattedLine|
      modifies this`formattedLine, this`readyFormattedLine, this`isLineReady, this`isInLineBreak, this`max, this`pending
      ensures Candidates() && NothingLost() == old(NothingLost()) && isLineReady && pending == NO_SPLIT_POINTS
      ensures |readyFormattedLine| == splitPoint
      ensures NonBlank(blanks) == [] && old(formattedLine) == readyFormattedLine + blanks + formattedLine
      ensures formattedLine == [] || !IsWhiteSpace(formattedLine[0])
      ensures CutInto(old(formattedLine), readyFormattedLine, formattedLine)
      ensures SameCharacters(old(formattedLine), Promoted(old(max), old(pending)), formattedLine, max)
    {
      hide Leading, AreCandidates, SameCharacters, IsCandidate, NonBlank, CutInto, Promoted;
      ghost var line, best := formattedLine, Promoted(max, pending);
      ghost var cut := splitPoint + Leading(line[splitPoint..]);
      PromotedAreCandidates(line, max, pending);
      SplitLosesNothing(line, splitPoint, cut);
      CutAtBlanks(line, splitPoint);
      PointsOfSuffix(line, best, cut);
      NoneAreCandidates(line[cut..]);
      SplitAt(splitPoint);
      blanks := line[splitPoint..cut];
      EmptyParts(NonBlank(delivered), NonBlank(line));
      assert NonBlank(delivered) + NonBlank(readyFormattedLine) + NonBlank(formattedLine)
          == NonBlank(delivered) + NonBlank(line);
    }

    /**
      Split the line if it is too long and the ready line has been read.  The old line is the
      ready line, then blanks, then the new line, and the candidates keep their characters.
    */
    method TestForTimeToSplitFormattedLine(restOfLineIsShort: bool) returns (ghost split: bool, ghost blanks: string)
      requires Candidates()
      modifies this`formattedLine, this`readyFormattedLine, this`isLineReady, this`isInLineBreak, this`max, this`pending
      ensures Candidates() && NothingLost() == old(NothingLost())
      ensures !split ==> unchanged(this)
      ensures split ==>
                && maxCodeLength.Some? && |old(formattedLine)| > maxCodeLength.value
                && !old(isLineReady) && isLineReady
                && NonBlank(blanks) == [] && old(formattedLine) == readyFormattedLine + blanks + formattedLine
                && (formattedLine == [] || !IsWhiteSpace(formattedLine[0]))
                && CutInto(old(formattedLine), readyFormattedLine, formattedLine)
      ensures split ==>
                0 < |readyFormattedLine| && ((exists k :: |readyFormattedLine| == old(max).At(k))
                                            || (exists k :: |readyFormattedLine| == old(pending).At(k)))
      ensures maxCodeLength.Some? ==>
                PointsAfter(old(formattedLine), (old(max), old(pending)), split, maxCodeLength.value,
                            formattedLine, readyFormattedLine, max, pending)
      ensures maxCodeLength.Some? && InsideLine(old(max), |old(formattedLine)|) ==>
                (split <==> |old(formattedLine)| > maxCodeLength.value && !old(isLineReady)
                            && CanSplit(old(max), old(pending), |old(formattedLine)|, maxCodeLength.value))
    {
      hide AreCandidates, SameCharacters, NonBlank, CutInto, CanSplit, NoneLongEnough, Promoted, NothingLost;
      split, blanks := false, "";
      if maxCodeLength.Some? && |formattedLine| > maxCodeLength.value && !isLineReady {
        var splitPoint := FindFormattedLineSplitPoint(restOfLineIsShort);
        if InsideLine(max, |formattedLine|) {
          ChoiceDecides(max, pending, splitPoint, |formattedLine|, maxCodeLength.value);
        }
        if 0 < splitPoint < |formattedLine| {
          blanks := SplitKeeping(splitPoint);
          split := true;
        }
      }
    }

    // ----- registering candidates -----

    /** Register a place within the maximum length, or a pending one beyond it. */
    method Register(kind: Kind, c: nat, fits: bool)
      requires Candidates() && IsCandidate(kind, formattedLine, c)
      modifies this`max, this`pending
      ensures Candidates() && NothingLost() == old(NothingLost())
      ensures (max, pending) == Registered(old(max), old(pending), Some(Place(kind, c, fits)))
    {
      hide IsCandidate;
      if fits {
        max := max.With(kind, c);
      } else {
        pending := pending.With(kind, c);
      }
    }

    /** After a character: the place it makes, if any, is registered, and nothing else is. */
    method UpdateFormattedLineSplitPoints(appendedChar: char, ctx: Context)
      requires Candidates() && maxCodeLength.Some?
      requires formattedLine != "" && formattedLine[|formattedLine| - 1] == appendedChar
      modifies this`max, this`pending, this`shouldKeepLineUnbroken
      ensures Candidates() && NothingLost() == old(NothingLost())
      ensures shouldKeepLineUnbroken == (old(shouldKeepLineUnbroken) || ctx.CheckBlock() in {Keep, KeepAndClear})
      ensures (max, pending) ==
              Updated(old(max), old(pending), old(shouldKeepLineUnbroken), ctx,
                      CharPlace(appendedChar, ctx, |formattedLine|, maxCodeLength.value))
    {
      hide NothingLost, IsCandidate;
      var ok := IsOkToSplitFormattedLine(ctx);
      if !ok {
        return;
      }
      var nextChar, length := ctx.nextChar, |formattedLine|;
      // don't split before an end of line comment, or next to a brace or a block paren
      if nextChar == '/'
         || appendedChar in {'{', '}'} || ctx.previousNonWSChar in {'{', '}'}
         || nextChar in {'{', '}'} || ctx.currentChar in {'{', '}'}
         || appendedChar in {'[', ']'} || ctx.previousNonWSChar == '[' || nextChar in {'[', ']'} {
        return;
      }
      LastCharPlaces(formattedLine);
      if IsWhiteSpace(appendedChar) {
        if nextChar != ')' && nextChar != '(' && nextChar != '/' && nextChar != ':'
           && ctx.currentChar != ')' && ctx.currentChar != '(' && ctx.previousNonWSChar != '('
           && !(nextChar == '*' && !IsCharPotentialOperator(ctx.previousNonWSChar) && ctx.pointerAlignType)
           && !(nextChar == '&' && !IsCharPotentialOperator(ctx.previousNonWSChar) && ctx.referenceAlignType) {
          Register(WhiteSpace, length - 1, length - 1 <= maxCodeLength.value);
        }
      } else if appendedChar == ')' {
        // unpadded closing parens may split after the paren
        if nextChar !in {')', ' ', ';', ',', '.'} && !(nextChar == '-' && ctx.pointerSymbolFollows) {
          Register(WhiteSpace, length, length <= maxCodeLength.value);
        }
      } else if appendedChar == ',' {
        Register(Comma, length, length <= maxCodeLength.value);
      } else if appendedChar == '(' {
        if nextChar !in {')', '(', '"', '\''} {
          // if it follows an operator break before
          var parenNum := if IsCharPotentialOperator(ctx.previousNonWSChar) then length - 1 else length;
          Register(Paren, parenNum, length <= maxCodeLength.value);
        }
      } else if appendedChar == ';' {
        if nextChar !in {' ', '}', '/'} {
          Register(Semi, length, length <= maxCodeLength.value);
        }
      }
    }

    /** After an operator. */
    method UpdateFormattedLineSplitPointsOperator(sequence: string, ctx: Context)
      requires Candidates() && maxCodeLength.Some?
      requires sequence != "" && EndsWith(formattedLine, sequence)
      modifies this`max, this`pending, this`shouldKeepLineUnbroken
      ensures Candidates() && NothingLost() == old(NothingLost())
      ensures shouldKeepLineUnbroken == (old(shouldKeepLineUnbroken) || ctx.CheckBlock() in {Keep, KeepAndClear})
      ensures (max, pending) ==
              Updated(old(max), old(pending), old(shouldKeepLineUnbroken), ctx,
                      OperatorPlace(sequence, ctx, formattedLine, maxCodeLength.value))
    {
      hide NothingLost, IsCandidate, AreCandidates, IsLogical, IsComparison, IsArithmetic, IsAssignment, EndsWith;
      var ok := IsOkToSplitFormattedLine(ctx);
      if !ok || ctx.nextChar == '/' {
        return;
      }
      var length := |formattedLine|;
      OperatorPlaces(formattedLine, sequence);
      if IsLogical(sequence) {
        if ctx.shouldBreakLineAfterLogical {
          Register(AndOr, length, length <= maxCodeLength.value);
        } else {
          // adjust for leading space in the sequence
          var sequenceLength := |sequence|;
          if length > sequenceLength && IsWhiteSpace(formattedLine[length - sequenceLength - 1]) {
            sequenceLength := sequenceLength + 1;
          }
          Register(AndOr, length - sequenceLength, length - sequenceLength <= maxCodeLength.value);
        }
      } else if IsComparison(sequence) {
        Register(WhiteSpace, length, length <= maxCodeLength.value);
      } else if IsArithmetic(sequence) {
        // split before the operator
        if !(sequence != "?" && ctx.isInExponent)
           && (ctx.FollowsName() || ctx.previousLineChar == Some('"')) {
          Register(WhiteSpace, length - 1, length - 1 <= maxCodeLength.value);
        }
      } else if IsAssignment(sequence) {
        // split after the operator, or before if the line is too long
        var splitPoint := if length < maxCodeLength.value then length else length - 1;
        if ctx.previousNonWSChar == ']' {
          Register(WhiteSpace, splitPoint, length - 1 <= maxCodeLength.value);
        } else if ctx.FollowsName() {
          Register(WhiteSpace, splitPoint, length <= maxCodeLength.value);
        }
      }
    }

    /** When a pointer or reference is formatted: `index` is that of the last blank, which is then a candidate. */
    method UpdateFormattedLineSplitPointsPointerOrReference(index: nat, ctx: Context)
      requires Candidates() && maxCodeLength.Some? && index < |formattedLine|
      modifies this`max, this`pending, this`shouldKeepLineUnbroken
      ensures IsCandidate(WhiteSpace, formattedLine, index) ==> Candidates()
      ensures NothingLost() == old(NothingLost())
      ensures shouldKeepLineUnbroken == (old(shouldKeepLineUnbroken) || ctx.CheckBlock() in {Keep, KeepAndClear})
      ensures (max, pending) ==
              Updated(old(max), old(pending), old(shouldKeepLineUnbroken), ctx,
                      if index < old(max).whiteSpace then None
                      else Some(Place(WhiteSpace, index, index <= maxCodeLength.value)))
    {
      hide NonBlank;
      var ok := IsOkToSplitFormattedLine(ctx);
      if !ok || index < max.whiteSpace {
        return;
      }
      if index <= maxCodeLength.value {
        max := max.(whiteSpace := index);
      } else {
        pending := pending.(whiteSpace := index);
      }
    }

    // ----- appending -----

    /** Append text and break the line before it if a break is registered and allowed. */
    method Append(text: string, canBreakLine: bool)
      requires Candidates()
      modifies this
      ensures Candidates() && appended == old(appended) + text
      ensures old(NothingLost()) ==> (NothingLost() <==> !(canBreakLine && old(isInLineBreak && BreakLoses())))
      ensures delivered == old(delivered) && shouldKeepLineUnbroken == old(shouldKeepLineUnbroken)
      ensures if canBreakLine && old(isInLineBreak)
              then formattedLine == text && readyFormattedLine == old(formattedLine) && isLineReady
              else formattedLine == old(formattedLine) + text && readyFormattedLine == old(readyFormattedLine)
                   && isLineReady == old(isLineReady)
      ensures (max, pending) ==
              if canBreakLine && old(isInLineBreak) then (NO_SPLIT_POINTS, NO_SPLIT_POINTS)
              else (old(max), old(pending))
      ensures (canBreakLine && old(isInLineBreak)) || |text| == 0 || InsideLine(max, |formattedLine|)
    {
      hide IsCandidate, NonBlank;
      ghost var line := formattedLine;
      if canBreakLine && isInLineBreak {
        NoneAreCandidates("");
        BreakLine(false);
        assert "" + text == text;
      }
      PointsOfLongerLine(formattedLine, text, max);
      PointsOfLongerLine(formattedLine, text, pending);
      if text != "" && line == formattedLine {
        LongerLineInside(line, max, |line| + |text|);
      }
      NonBlankAppend(formattedLine, text);
      NonBlankAppend(appended, text);
      ghost var front := NonBlank(delivered) + NonBlank(if isLineReady then readyFormattedLine else "");
      SameTail(NonBlank(appended), front + NonBlank(formattedLine), NonBlank(text));
      Append3(front, NonBlank(formattedLine), NonBlank(text));
      formattedLine := formattedLine + text;
      appended := appended + text;
    }

    method AppendChar(ch: char, canBreakLine: bool, ctx: Context)
      requires Candidates()
      modifies this
      ensures Candidates() && appended == old(appended) + [ch] && delivered == old(delivered)
      ensures old(NothingLost()) ==> (NothingLost() <==> !(canBreakLine && old(isInLineBreak && BreakLoses())))
      ensures LinesAfter(old(formattedLine), old(readyFormattedLine), old(isLineReady),
                         canBreakLine && old(isInLineBreak), [ch], formattedLine, readyFormattedLine, isLineReady)
      ensures var place := CharPlace(ch, ctx, |old(formattedLine)| + 1, Limit(maxCodeLength));
              var points := Updated(old(max), old(pending), old(shouldKeepLineUnbroken), ctx, place);
              var line, broken := old(formattedLine) + [ch], canBreakLine && old(isInLineBreak);
              (isLineReady <==> broken || old(isLineReady) || SplitsAt(points, |line|, maxCodeLength))
      ensures !(canBreakLine && old(isInLineBreak)) && maxCodeLength.Some? ==>
                var place := CharPlace(ch, ctx, |old(formattedLine)| + 1, Limit(maxCodeLength));
                var points := Updated(old(max), old(pending), old(shouldKeepLineUnbroken), ctx, place);
                PointsAfter(old(formattedLine) + [ch], points, isLineReady != old(isLineReady), maxCodeLength.value,
                            formattedLine, readyFormattedLine, max, pending)
      ensures maxCodeLength.Some? ==>
                shouldKeepLineUnbroken == (old(shouldKeepLineUnbroken) || ctx.CheckBlock() in {Keep, KeepAndClear})
    {
      hide Candidates, AreCandidates, NothingLost, BreakLoses, CutInto, CanSplit, InsideLine, SameCharacters, Promoted;
      hide Updated, CharPlace, OperatorPlace, IsCandidate, PointsAfter, NonBlank;
      Append([ch], canBreakLine);
      if maxCodeLength.Some? && |formattedLine| > maxCodeLength.value && !(canBreakLine && old(isInLineBreak)) {
        CharPlaceIsCandidate(formattedLine, ctx, Limit(maxCodeLength));
        UpdatedIsInside(max, pending, shouldKeepLineUnbroken, ctx,
                        CharPlace(ch, ctx, |formattedLine|, Limit(maxCodeLength)),
                        |formattedLine|, maxCodeLength.value);
      }
      PlaceDoesNotMatter(max, pending, shouldKeepLineUnbroken, ctx,
                         CharPlace(ch, ctx, |formattedLine|, Limit(maxCodeLength)));
      if maxCodeLength.Some? {
        var ok := IsOkToSplitFormattedLine(ctx);
        if ok {
          UpdateFormattedLineSplitPoints(ch, ctx);
        }
        PointsUnsplit(formattedLine, (max, pending), maxCodeLength.value, readyFormattedLine);
        if |formattedLine| > maxCodeLength.value {
          ghost var split, blanks := TestForTimeToSplitFormattedLine(ctx.restOfLineIsShort);
        }
      }
    }

    /**
      Text appended to an empty line, no block forbidding it to be split: with a plain comma or blank
      between 10 and the maximum length the line is split when it grows longer, into a line that fits.
    */
    method AppendText(text: string, contexts: seq<Context>)
      requires Candidates() && formattedLine == "" && !isLineReady && !shouldKeepLineUnbroken
      requires maxCodeLength.Some? && maxCodeLength.value < |text| == |contexts|
      requires forall i :: 0 <= i < |text| ==> MayBreakHere(contexts[i])
      requires exists i ::
                 && 10 <= i < maxCodeLength.value && IsPlainPlace(text[i], contexts[i])
                 && (text[i] == ',' || maxCodeLength.value >= 31)
      modifies this
      ensures Candidates() && appended == old(appended) + text && delivered == old(delivered)
      ensures isLineReady && readyFormattedLine <= text
      ensures 10 <= |readyFormattedLine| <= maxCodeLength.value
    {
      hide AreCandidates, NothingLost, NonBlank, CharPlace, Updated, SameCharacters, Promoted, IsPlainPlace;
      hide NoneLongEnough, MayBreakHere, InsideLine, HasPlace;
      var k := 0;
      assert text[..0] == "";
      while k < |text|
        invariant k <= |text| && Candidates() && appended == old(appended) + text[..k] && delivered == old(delivered)
        invariant !isLineReady ==> formattedLine == text[..k] && k <= maxCodeLength.value && !shouldKeepLineUnbroken
        invariant !isLineReady ==>
                    forall i | 10 <= i < k && IsPlainPlace(text[i], contexts[i]) ::
                      text[i] == ',' || maxCodeLength.value >= 31 ==> HasPlace(max, maxCodeLength.value)
        invariant isLineReady ==> readyFormattedLine <= text && 10 <= |readyFormattedLine| <= maxCodeLength.value
      {
        ghost var points := Updated(max, pending, false, contexts[k],
                                    CharPlace(text[k], contexts[k], |formattedLine| + 1, maxCodeLength.value));
        if !isLineReady {
          GrowsOn(max, pending, formattedLine, text[k], contexts[k], maxCodeLength.value);
          SplitsWithPlace(points, k + 1, maxCodeLength.value);
          assert k == maxCodeLength.value ==> HasPlace(max, maxCodeLength.value);
        }
        assert text[..k + 1] == text[..k] + [text[k]];
        AppendChar(text[k], false, contexts[k]);
        k := k + 1;
      }
    }

    /** A blank, unless the last character is one. */
    method AppendSpacePad(ctx: Context)
      requires Candidates()
      modifies this
      ensures Candidates() && (old(NothingLost()) ==> NothingLost())
      ensures delivered == old(delivered) && NonBlank(appended) == NonBlank(old(appended))
      ensures old(formattedLine) != "" && !IsWhiteSpace(old(formattedLine)[|old(formattedLine)| - 1]) ==>
                LinesAfter(old(formattedLine), old(readyFormattedLine), old(isLineReady), false, " ",
                           formattedLine, readyFormattedLine, isLineReady)
      ensures old(formattedLine) != "" && !IsWhiteSpace(old(formattedLine)[|old(formattedLine)| - 1]) ==>
                var n := |old(formattedLine)| + 1;
                var place := CharPlace(' ', ctx, n, Limit(maxCodeLength));
                var points := Updated(old(max), old(pending), old(shouldKeepLineUnbroken), ctx, place);
                (isLineReady <==> old(isLineReady) || SplitsAt(points, n, maxCodeLength))
      ensures old(formattedLine) == "" || IsWhiteSpace(old(formattedLine)[|old(formattedLine)| - 1]) ==> unchanged(this)
    {
      if formattedLine != "" && !IsWhiteSpace(formattedLine[|formattedLine| - 1]) {
        hide AreCandidates, NothingLost, NonBlank, CanSplit, CharPlace, CutInto, SameCharacters;
        AppendChar(' ', false, ctx);
        BlankAppended(old(appended));
      }
    }

    /** A blank, unless the next character of the input line is one or there is none. */
    method AppendSpaceAfter(nextInLine: Option<char>, ctx: Context)
      requires Candidates()
      modifies this
      ensures Candidates() && (old(NothingLost()) ==> NothingLost())
      ensures delivered == old(delivered) && NonBlank(appended) == NonBlank(old(appended))
      ensures nextInLine.Some? && !IsWhiteSpace(nextInLine.value) ==>
                LinesAfter(old(formattedLine), old(readyFormattedLine), old(isLineReady), false, " ",
                           formattedLine, readyFormattedLine, isLineReady)
      ensures nextInLine.Some? && !IsWhiteSpace(nextInLine.value) ==>
                var n := |old(formattedLine)| + 1;
                var place := CharPlace(' ', ctx, n, Limit(maxCodeLength));
                var points := Updated(old(max), old(pending), old(shouldKeepLineUnbroken), ctx, place);
                (isLineReady <==> old(isLineReady) || SplitsAt(points, n, maxCodeLength))
      ensures nextInLine.None? || IsWhiteSpace(nextInLine.value) ==> unchanged(this)
    {
      if nextInLine.Some? && !IsWhiteSpace(nextInLine.value) {
        hide AreCandidates, NothingLost, NonBlank, CanSplit, CharPlace, CutInto, SameCharacters;
        AppendChar(' ', false, ctx);
        BlankAppended(old(appended));
      }
    }

    method AppendSequence(sequence: string, canBreakLine: bool, ctx: Context)
      requires Candidates()
      modifies this
      ensures Candidates() && appended == old(appended) + sequence && delivered == old(delivered)
      ensures old(NothingLost()) ==> (NothingLost() <==> !(canBreakLine && old(isInLineBreak && BreakLoses())))
      ensures LinesAfter(old(formattedLine), old(readyFormattedLine), old(isLineReady),
                         canBreakLine && old(isInLineBreak), sequence, formattedLine, readyFormattedLine, isLineReady)
      ensures var points := (old(max), old(pending));
              var line, broken := old(formattedLine) + sequence, canBreakLine && old(isInLineBreak);
              sequence == "" || (isLineReady <==> broken || old(isLineReady) || SplitsAt(points, |line|, maxCodeLength))
      ensures !(canBreakLine && old(isInLineBreak)) && maxCodeLength.Some? ==>
                PointsAfter(old(formattedLine) + sequence, (old(max), old(pending)),
                            isLineReady != old(isLineReady), maxCodeLength.value,
                            formattedLine, readyFormattedLine, max, pending)
    {
      hide AreCandidates, NothingLost, CutInto;
      Append(sequence, canBreakLine);
      if maxCodeLength.Some? && |formattedLine| > maxCodeLength.value {
        ghost var split, blanks := TestForTimeToSplitFormattedLine(ctx.restOfLineIsShort);
      }
    }

    method AppendOperator(sequence: string, canBreakLine: bool, ctx: Context)
      requires Candidates() && sequence != ""
      modifies this
      ensures Candidates() && appended == old(appended) + sequence && delivered == old(delivered)
      ensures old(NothingLost()) ==> (NothingLost() <==> !(canBreakLine && old(isInLineBreak && BreakLoses())))
      ensures LinesAfter(old(formattedLine), old(readyFormattedLine), old(isLineReady),
                         canBreakLine && old(isInLineBreak), sequence, formattedLine, readyFormattedLine, isLineReady)
      ensures var place := OperatorPlace(sequence, ctx, old(formattedLine) + sequence, Limit(maxCodeLength));
              var points := Updated(old(max), old(pending), old(shouldKeepLineUnbroken), ctx, place);
              var line, broken := old(formattedLine) + sequence, canBreakLine && old(isInLineBreak);
              (isLineReady <==> broken || old(isLineReady) || SplitsAt(points, |line|, maxCodeLength))
      ensures !(canBreakLine && old(isInLineBreak)) && maxCodeLength.Some? ==>
                var place := OperatorPlace(sequence, ctx, old(formattedLine) + sequence, Limit(maxCodeLength));
                var points := Updated(old(max), old(pending), old(shouldKeepLineUnbroken), ctx, place);
                PointsAfter(old(formattedLine) + sequence, points, isLineReady != old(isLineReady),
                            maxCodeLength.value, formattedLine, readyFormattedLine, max, pending)
    {
      hide Candidates, AreCandidates, NothingLost, BreakLoses, CutInto, CanSplit, InsideLine, SameCharacters, Promoted;
      hide Updated, CharPlace, OperatorPlace, IsCandidate, PointsAfter, NonBlank;
      Append(sequence, canBreakLine);
      if maxCodeLength.Some? && |formattedLine| > maxCodeLength.value && !(canBreakLine && old(isInLineBreak)) {
        OperatorPlaceIsCandidate(formattedLine, sequence, ctx, Limit(maxCodeLength));
        UpdatedIsInside(max, pending, shouldKeepLineUnbroken, ctx,
                        OperatorPlace(sequence, ctx, formattedLine, Limit(maxCodeLength)),
                        |formattedLine|, maxCodeLength.value);
      }
      PlaceDoesNotMatter(max, pending, shouldKeepLineUnbroken, ctx,
                         OperatorPlace(sequence, ctx, formattedLine, Limit(maxCodeLength)));
      if maxCodeLength.Some? {
        var ok := IsOkToSplitFormattedLine(ctx);
        if ok {
          UpdateFormattedLineSplitPointsOperator(sequence, ctx);
        }
        PointsUnsplit(formattedLine, (max, pending), maxCodeLength.value, readyFormattedLine);
        if |formattedLine| > maxCodeLength.value {
          ghost var split, blanks := TestForTimeToSplitFormattedLine(ctx.restOfLineIsShort);
        }
      }
    }
  }

  /** No block forbids the line to be split. */
  ghost predicate MayBreakHere(ctx: Context) {
    && !ctx.isInUnsplittable && !ctx.braceType.isArray && !ctx.braceType.isSingleLine
    && !(ctx.braceType.isCommand && ctx.braceType.isEmptyBlock)
  }

  /** A comma or blank with no comment, brace, bracket, paren, colon, `*` or `&` beside it. */
  ghost predicate IsPlainPlace(c: char, ctx: Context) {
    && c in {',', ' ', '\t'} && ctx.nextChar !in {'/', '{', '}', '[', ']', '(', ')', ':', '*', '&'}
    && ctx.currentChar !in {'{', '}', '(', ')'} && ctx.previousNonWSChar !in {'{', '}', '[', '('}
  }

  /** A comma is far enough at 10; any other place is from a maximum length of 31 on. */
  ghost predicate HasPlace(max: SplitPoints, maxLength: nat) {
    max.comma >= 10 || (maxLength >= 31 && exists k :: max.At(k) >= 10)
  }

  lemma SplitsWithPlace(points: (SplitPoints, SplitPoints), n: nat, maxLength: nat)
    ensures HasPlace(points.0, maxLength) && n > maxLength ==> SplitsAt(points, n, Some(maxLength))
    ensures HasPlace(points.0, maxLength) ==> !NoneLongEnough(points.0, maxLength)
  {
    if points.0.comma < 10 && maxLength >= 31 {
      FromLength31(points.0, maxLength);
    }
  }

  /** One more character: a place at 10 or beyond remains, and a plain comma or blank is one. */
  lemma GrowsOn(max: SplitPoints, pending: SplitPoints, line: string, c: char, ctx: Context, maxLength: nat)
    requires MayBreakHere(ctx) && AreCandidates(line, max) && |line| <= maxLength
    ensures ctx.CheckBlock() == MayBreak
    ensures var points := Updated(max, pending, false, ctx, CharPlace(c, ctx, |line| + 1, maxLength));
            && (forall k :: points.0.At(k) <= maxLength)
            && (HasPlace(max, maxLength) ==> HasPlace(points.0, maxLength))
            && (10 <= |line| < maxLength && IsPlainPlace(c, ctx) && (c == ',' || maxLength >= 31) ==>
                  HasPlace(points.0, maxLength))
  {
    hide AreCandidates, Updated, CharPlace;
    WhichBlocksBreak(ctx);
    WhichCharsSplit(c, ctx, |line| + 1, maxLength);
    LongerLineInside(line, max, |line| + 1);
    var place := CharPlace(c, ctx, |line| + 1, maxLength);
    var after := Updated(max, pending, false, ctx, place).0;
    FittingPlace(c, ctx, |line| + 1, maxLength);
    forall k ensures after.At(k) <= maxLength && after.At(k) >= max.At(k) {
      WhatIsRegistered(max, pending, false, ctx, place, k);
      assert max.At(k) <= |line|;
    }
    AllKinds(max);
    AllKinds(after);
    if HasPlace(max, maxLength) && max.comma < 10 {
      var k :| max.At(k) >= 10;
      assert after.At(k) >= 10;
    }
    if 10 <= |line| < maxLength && IsPlainPlace(c, ctx) {
      var k := if c == ',' then Comma else WhiteSpace;
      WhatIsRegistered(max, pending, false, ctx, place, k);
      assert after.At(k) >= 10;
    }
  }

  lemma FittingPlace(c: char, ctx: Context, n: nat, maxLength: nat)
    requires n > 0
    ensures var place := CharPlace(c, ctx, n, maxLength);
            place.Some? && place.value.fits ==> n - 1 <= place.value.pos <= maxLength
  {
  }

  lemma BlankAppended(s: string)
    ensures NonBlank(s + [' ']) == NonBlank(s)
  {
    NonBlankAppend(s, [' ']);
    BlanksVanish([' ']);
    NothingMore(NonBlank(s));
  }

  predicate IsLogical(s: string) { s == "||" || s == "&&" || s == "or" || s == "and" }
  predicate IsComparison(s: string) { s == "==" || s == "!=" || s == ">=" || s == "<=" }
  predicate IsArithmetic(s: string) { s == "+" || s == "-" || s == "?" }
  predicate IsAssignment(s: string) { s == "=" || s == ":" }

  ghost predicate EndsWith(line: string, sequence: string) {
    |sequence| <= |line| && line[|line| - |sequence|..] == sequence
  }

  /** The places next to the last character. */
  lemma LastCharPlaces(line: string)
    requires line != ""
    ensures var c := line[|line| - 1];
            && (c == ';' ==> IsCandidate(Semi, line, |line|))
            && (c == ',' ==> IsCandidate(Comma, line, |line|))
            && (c == '(' ==> IsCandidate(Paren, line, |line|) && IsCandidate(Paren, line, |line| - 1))
            && (c == ')' ==> IsCandidate(WhiteSpace, line, |line|))
            && (IsWhiteSpace(c) ==> IsCandidate(WhiteSpace, line, |line| - 1))
  {
  }

  /** The places next to the operator at the end of the line. */
  lemma OperatorPlaces(line: string, sequence: string)
    requires sequence != "" && EndsWith(line, sequence)
    ensures |line| >= |sequence|
    ensures IsLogical(sequence) ==>
              && IsCandidate(AndOr, line, |line|) && IsCandidate(AndOr, line, |line| - |sequence|)
              && (|line| > |sequence| && IsWhiteSpace(line[|line| - |sequence| - 1]) ==>
                    IsCandidate(AndOr, line, |line| - |sequence| - 1))
    ensures IsComparison(sequence) ==> IsCandidate(WhiteSpace, line, |line|)
    ensures IsArithmetic(sequence) || IsAssignment(sequence) ==> IsCandidate(WhiteSpace, line, |line| - 1)
    ensures IsAssignment(sequence) ==> IsCandidate(WhiteSpace, line, |line|)
  {
    var k := |line| - |sequence|;
    assert line[k] == line[k..][0] && line[|line| - 1] == line[k..][|sequence| - 1];
  }

  lemma PromotedAreCandidates(line: string, max: SplitPoints, pending: SplitPoints)
    requires AreCandidates(line, max) && AreCandidates(line, pending)
    ensures AreCandidates(line, Promoted(max, pending))
  {
  }

  lemma NoneAreCandidates(line: string)
    ensures AreCandidates(line, NO_SPLIT_POINTS)
  {
  }

  /** Cutting a line in two and dropping the blanks in between. */
  lemma SplitLosesNothing(line: string, splitPoint: nat, cut: nat)
    requires splitPoint <= |line| && cut == splitPoint + Leading(line[splitPoint..])
    ensures cut <= |line| && line == line[..splitPoint] + line[splitPoint..cut] + line[cut..]
    ensures NonBlank(line[splitPoint..cut]) == []
    ensures NonBlank(line) == NonBlank(line[..splitPoint]) + NonBlank(line[cut..])
    ensures cut < |line| ==> !IsWhiteSpace(line[cut])
  {
    hide *;
    LeadingBlanks(line, splitPoint);
    ThreeParts(line, splitPoint, cut);
    var front, blanks, back := line[..splitPoint], line[splitPoint..cut], line[cut..];
    NonBlankAppend(front + blanks, back);
    NonBlankAppend(front, blanks);
    NothingMore(NonBlank(front));
  }

  lemma NothingMore(s: string)
    ensures s + [] == s
  {
  }

  lemma LeadingBlanks(line: string, from: nat)
    requires from <= |line|
    ensures var cut := from + Leading(line[from..]);
            && cut <= |line| && NonBlank(line[from..cut]) == []
            && (cut < |line| ==> !IsWhiteSpace(line[cut]))
  {
    hide NonBlank, Leading, IsWhiteSpace;
    var rest := line[from..];
    LeadingAreBlanks(rest);
    var blanks := rest[..Leading(rest)];
    assert line[from..from + Leading(rest)] == blanks;
    BlanksVanish(blanks);
  }

  lemma ThreeParts(line: string, a: nat, b: nat)
    requires a <= b <= |line|
    ensures line == line[..a] + line[a..b] + line[b..]
  {
  }

  /** Leaving out the middle of three texts changes them exactly when there is something in it. */
  lemma LostWith(a: string, b: string, c: string)
    ensures a + b + c == a + c <==> b == ""
  {
    assert |a + b + c| == |a| + |b| + |c| && |a + c| == |a| + |c|;
    assert b == "" ==> a + b == a;
  }

  lemma SameTail(a: string, b: string, tail: string)
    ensures a + tail == b + tail <==> a == b
  {
    assert a + tail == b + tail ==> |a| == |b| && (a + tail)[..|a|] == a && (b + tail)[..|b|] == b;
  }

  lemma EmptyParts(a: string, b: string)
    ensures a + NonBlank("") + b == a + b && a + b + NonBlank("") == a + b
  {
  }
}