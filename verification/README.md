# Verified models of the bundled source formatter and of PNG message building

OpenJPEG's repository carries the Artistic Style formatter, which keeps its sources in shape, and
libpng, which its command-line programs use. This project models their self-contained algorithms
and proves what they promise. One module stands for one component:

- `PreprocessorStacks`: the beautifier keeps clones of itself on a waiting and an active stack, so
  that every branch of an `#if` starts from the same indentation state. What a line does to that
  state is an arbitrary function. The object with its two stacks of references refines stacks of
  states, and these refine a recursion over conditional trees.
- `HeaderStacks`: the header stack with its temporary stacks, in which an `else` finds its `if`.
  The parser object refines a state machine, and that machine computes the dangling-else parse.
- `ContinuationIndents`: bracket discipline of the continuation indents, and the loop of a block
  opener that purges them.
- `Wildcard`, `Encoding`, `LineEnds`, `StreamIterator`, `NumberFormat`: the wildcard matcher, the
  UTF-8/UTF-16 converters with their length functions, the line-end converter, the line iterator
  with its peek sessions, and the grouping of digits.
- `WordLookup`: headers, keywords and operators at a position of a line.
- `LineSplitter`: which characters and operators make split points of a formatted line, and the split.
- `IndentEdit`, `SwitchStack`: indenting and unindenting lines in place, and the stack of `switch`
  variables, which decides how far each line of a file is unindented.
- `OneLineBlock`: the two scanners, one in the enhancer and one in the formatter, that tell whether
  a brace is closed on its line.
- `PngWarnings`, `PngNumbers`: libpng's bounded messages and its printing of numbers, with
  `Numerals` for digits and what they denote. `Common` holds what several modules share.

Fields that a method reassigns are fields of a class here too, and each such method is proved
against a function of the old state; buffers are arrays.

## Where the code differs from what it promises

- The converter to UTF-8 stops when its input has been read, before it writes the continuation
  bytes of the last character, and it does not keep the code point between blocks
  (`thirdparty/astyle/astyle_main.cpp:3646-3657`). A file read in blocks is converted
  completely exactly when the characters at the seams have no bits below their first byte and the
  very last character is ASCII (`Encoding.BlocksAreCompleteIff`); `Encoding.LastByteMissing` is a
  file of one block that loses a byte.
- The UTF-8 length of little-endian text counts six bytes for a surrogate pair instead of four, the
  units being read as signed shorts (`thirdparty/astyle/astyle_main.cpp:3514-3527`, `Encoding.PairCountsSix`).
- A peek session that starts at position 0 is taken for no session at its second look, so that the
  first line is lost (`thirdparty/astyle/astyle_main.cpp:235-236`,
  `StreamIterator.Iterator.PeekTwice`). With assertions on, the reset
  after a single look there is stopped by the one at line 268.
- A single line-end character at the very end of the input is not counted
  (`thirdparty/astyle/astyle_main.cpp:178-207`). A file of one line with LF gets the line end of
  Windows (`StreamIterator.OneLineIsWindows`); when the output line end is still the most frequent of
  all terminators is said by `StreamIterator.MostFrequentOfAllIff`.
- A line of an enum that begins with a comma takes a continuation indent away at any paren depth and
  without a look at the sizes (`thirdparty/astyle/ASBeautifier.cpp:2097-2103`), as do a namespace
  header and the end of an Objective-C method definition (lines 3444-3445 and 2370-2371). Inside a
  bracket this can take away indents from around the bracket and leave a size above their number,
  although everything is well bracketed (`ContinuationIndents.CommaLinesTakeOuter`). Over a well
  bracketed run the sizes stay ordered exactly as long as each such line finds no indent, or more
  indents than the top size counts (`ContinuationIndents.RunKeepsOrderIff`). The indents around a
  bracket without blocks inside stay where they are exactly as long as, whenever they are all there
  is, none is taken away and no `new` finds a last one other than 0
  (`ContinuationIndents.BracketRestores`, `ContinuationIndents.NewTakesOuter`).
- Enum commas outside of brackets do no harm in a run where nothing is closed that is not open, no
  block ends inside a bracket and no enumerator stands inside an open template. In others they can
  break the order (`ContinuationIndents.UnbalancedBreaksOrder`, `EarlyBlockEndBreaksOrder`,
  `TemplateBreaksOrder`). The purge loop ends in any case: it needs only the bottom of 0.
- A template pushes a paren indent that its closer does not pop
  (`thirdparty/astyle/ASBeautifier.cpp:2696-2714`, `ContinuationIndents.TemplateLeavesParenIndent`).
- A block in a bracket throws away the indents around the bracket
  (`thirdparty/astyle/ASBeautifier.cpp:2923-2927`); `ContinuationIndents.BlockForgetsOuterIff` states
  it for every such bracket over which the sizes stay ordered.
- The sign of a negative number is grouped like a digit (`thirdparty/astyle/astyle_main.cpp:1270-1306`),
  which is meant for positive numbers: -123 in groups of three is "-,123" (`NumberFormat.SignAloneIff`).
- A registered break overwrites the ready line whether that was read or not
  (`thirdparty/astyle/ASFormatter.cpp:2671-2672`, `thirdparty/astyle/ASFormatter.cpp:2778`). Only a
  split waits for the reader; `LineSplitter.Formatter.BreakLine` says when text is lost.
- The fixed number format drops zeros at the end of the integer part when there is no fraction
  (`thirdparty/libpng/pngerror.c:155-160`, `PngNumbers.ZerosDropped`).
- The comment over `png_format_buffer` speaks of 63 bytes; the code copies up to 195
  (`thirdparty/libpng/pngerror.c:421-426`, `thirdparty/libpng/pngerror.c:469`).
- With a maximum code length of 30 or less, which the short option allows by having no lower bound
  (`thirdparty/astyle/astyle_main.cpp:3131-3142`), a comma or paren that is too near to the beginning
  can be taken in the place of a better candidate, and then there may be no split
  (`thirdparty/astyle/ASFormatter.cpp:7192-7206`, `LineSplitter.NotFromLength30`). When that is so is
  stated for every length by `LineSplitter.NearerTakenInstead`.
- Restoring after a `switch` statement holds for the tokens that are not bypassed: with case indent
  switches are entered and never left, and the word `switch` on a preprocessor line is not bypassed
  (`thirdparty/astyle/ASEnhancer.cpp:624-640`, `SwitchStack.SwitchInDirective`).
- In force-tab mode unindenting gives back the line with canonical blanks, so it gives back the
  line itself exactly when it had these (`thirdparty/astyle/ASEnhancer.cpp:751-795`,
  `IndentEdit.NotCanonical`), and a blank line makes the conversion to tabs
  fail (`thirdparty/astyle/ASEnhancer.cpp:188-196`).

## Model

| member | source | states |
|---|---|---|
| PreprocessorStacks.MachineRefinesTree | thirdparty/astyle/ASBeautifier.cpp:1952-2009 | for every conditional tree, from any stacks and for any per-line step, the waiting/active machine has the outputs of the recursive meaning in order, and changes nothing but the state in charge, which becomes that of the first branch |
| PreprocessorStacks.ItemRefines | thirdparty/astyle/ASBeautifier.cpp:1952-2009 | a whole `#if` ... `#endif` leaves both stacks and both length stacks as they were; the first branch's state stays in charge |
| PreprocessorStacks.BranchesStartFromSnapshot | thirdparty/astyle/ASBeautifier.cpp:1964-2009 | each `#elif` and `#else` branch runs from the snapshot taken at its own `#if`, whatever the earlier branches did, and the `#endif` restores everything |
| PreprocessorStacks.ClosingRestores | thirdparty/astyle/ASBeautifier.cpp:1981-2009 | cutting back to the saved lengths gives the stacks of the opening line, with or without the waiting snapshot still there |
| PreprocessorStacks.StrayDirectives | thirdparty/astyle/ASBeautifier.cpp:1964-2009 | with no conditional open any sequence of `#else`, `#elif` and `#endif` changes nothing |
| PreprocessorStacks.BranchAfterElse | thirdparty/astyle/ASBeautifier.cpp:1964-1980 | after the `#else` the snapshot is gone: a further `#else` or `#elif` starts from the one of the conditional around, or, without one, goes on from the branch |
| PreprocessorStacks.Beautifier.OpenConditional | thirdparty/astyle/ASBeautifier.cpp:1952-1963 | a clone of whoever is in charge is saved, with the lengths of both stacks; the clone is a new object |
| PreprocessorStacks.Beautifier.OpenElif | thirdparty/astyle/ASBeautifier.cpp:1973-1980 | a copy of the waiting clone becomes active and the waiting one stays; nothing if none waits |
| PreprocessorStacks.Beautifier.OpenElse | thirdparty/astyle/ASBeautifier.cpp:1964-1972 | the waiting clone itself moves to the active stack; nothing if none waits |
| PreprocessorStacks.Beautifier.CloseConditional | thirdparty/astyle/ASBeautifier.cpp:1981-2009 | both stacks are cut to the remembered lengths; an unmatched `#endif` cuts nothing |
| PreprocessorStacks.Beautifier.ProcessPreprocessor | thirdparty/astyle/ASBeautifier.cpp:1952-2009 | each directive acts on the objects as on the stacks of states, and no clone ever gets onto the stacks twice |
| PreprocessorStacks.Beautifier.Beautify | thirdparty/astyle/ASBeautifier.cpp:1147-1170 | an ordinary line goes to the top active clone or to the beautifier itself and changes no other clone's state |
| PreprocessorStacks.Beautifier.BeautifyAll | thirdparty/astyle/ASBeautifier.cpp:1147-1170 | a whole file: outputs and final stacks are those of the run that the refinement is about |
| HeaderStacks.ProgramIsParsed | thirdparty/astyle/ASBeautifier.cpp:2991-3022 | every program of the grammar: the header stack at each statement and header word, and the indent of those that start a line, are those of the dangling-else parse of its text; at the end the stack is empty |
| HeaderStacks.OnlyParse | thirdparty/astyle/ASBeautifier.cpp:2991-3022 | the dangling-else parse is the only tree with that text that obeys the rule |
| HeaderStacks.OnlyOneStatement | thirdparty/astyle/ASBeautifier.cpp:2991-3022 | by the rule a text can be read as a statement and a rest in one way only, if no unfinished `if` is followed by an `else` |
| HeaderStacks.StackIsPath | thirdparty/astyle/ASBeautifier.cpp:2991-3044 | a statement run from any settled state reports the path of its parse tree and leaves its headers, innermost first, in `tempStacks` |
| HeaderStacks.RestackFindsOpener | thirdparty/astyle/ASBeautifier.cpp:2998-3044 | restacking brings back exactly the headers around the nearest `if` (or `do`) of the statement just ended, and adds their number to the indent unless a closing brace was reached |
| HeaderStacks.ElsePart | thirdparty/astyle/ASBeautifier.cpp:2991-3022 | an `else` and its statement, a joined `else if` counting as one `if` |
| HeaderStacks.JoinedIf | thirdparty/astyle/ASBeautifier.cpp:2992-2995 | after the `else` has been popped a joined `if` runs as if there had been no `else` |
| HeaderStacks.WhilePart | thirdparty/astyle/ASBeautifier.cpp:3025-3044 | the `while` of a `do` finds its `do` in the same way |
| HeaderStacks.BlockIsPath | thirdparty/astyle/ASBeautifier.cpp:2952-2953 | within a block only its own open statements are looked at; the outer entries of `tempStacks` are untouched |
| HeaderStacks.TailFacts | thirdparty/astyle/ASBeautifier.cpp:3372-3379 | a finished statement still offers an `if` to a following `else` exactly when it ends in an unfinished `if` |
| HeaderStacks.ReparseSameText | thirdparty/astyle/ASBeautifier.cpp:2991-3022 | every tree has the same text as its dangling-else parse, so the parse exists for every program text |
| HeaderStacks.AttachIsElse | thirdparty/astyle/ASBeautifier.cpp:2991-3022 | giving an `else` to the innermost unfinished `if` keeps the rule and appends exactly the text of the `else` |
| HeaderStacks.PushHeaders | thirdparty/astyle/ASBeautifier.cpp:2027-2046 | headers pushed above a brace count one indent each and belong to the same block |
| HeaderStacks.PushBrace | thirdparty/astyle/ASBeautifier.cpp:2027-2046 | a header and its own brace count once |
| HeaderStacks.StepKeepsValid | thirdparty/astyle/ASBeautifier.cpp:2952-2953 | over any step `tempStacks` has one entry more than there are open braces, and no entry holds a brace |
| HeaderStacks.RunKeepsValid | thirdparty/astyle/ASBeautifier.cpp:3331-3379 | so over every run, well formed or not, no empty `tempStacks` is read |
| HeaderStacks.IndexOf | thirdparty/astyle/ASBeautifier.cpp:1428-1436 | the first index of the element, or -1 exactly when it is absent |
| HeaderStacks.BraceLineIndent | thirdparty/astyle/ASBeautifier.cpp:3011-3014 | a line that begins with `}` keeps, whatever follows the brace on it, the indent of the headers that were open before it, an `else` or `while` with all its restacked headers included |
| HeaderStacks.NoOpener | thirdparty/astyle/ASBeautifier.cpp:2991-3044 | an `else` or `while` that finds no `if` or `do` is pushed like any other header and restacks nothing |
| HeaderStacks.UnmatchedBrace | thirdparty/astyle/ASBeautifier.cpp:3331-3379 | a closing brace with no open one ends the statement, and does no more |
| HeaderStacks.LineParser.ComputePreliminaryIndentation | thirdparty/astyle/ASBeautifier.cpp:2027-2046 | the loop's count is the nesting depth of the header stack |
| HeaderStacks.LineParser.RestackTo | thirdparty/astyle/ASBeautifier.cpp:2999-3022 | the in-place restack is the restack of the specification |
| HeaderStacks.LineParser.EndStatement | thirdparty/astyle/ASBeautifier.cpp:3372-3379 | the headers down to the innermost brace move, reversed, to the top temporary stack |
| HeaderStacks.LineParser.CloseBlock | thirdparty/astyle/ASBeautifier.cpp:3325-3379 | a closing brace pops to its opening brace, drops one temporary stack and ends the statement |
| HeaderStacks.LineParser.ReachHeader | thirdparty/astyle/ASBeautifier.cpp:2991-3114 | what each header word does to the stacks |
| HeaderStacks.LineParser.ParseProgram | thirdparty/astyle/ASBeautifier.cpp:2952-3114 | the parser object reports for a whole program the events of its dangling-else parse |
| ContinuationIndents.BracketRestores | thirdparty/astyle/ASBeautifier.cpp:2717-2796 | for every matched bracket or array brace, whatever is inside but blocks: the indents of its opener stay at the bottom of every state inside if and only if every step spares them, and then all stacks and depths are back at the closer, but for one paren indent for each template inside |
| ContinuationIndents.NoDropsSpare | thirdparty/astyle/ASBeautifier.cpp:2717-2796 | without unguarded drops and `new` inside a bracket every step spares them |
| ContinuationIndents.StepSparesIff | thirdparty/astyle/ASBeautifier.cpp:2097-2103 | a step leaves the indents of the opener alone exactly when, with these being all there are, it takes none away, and a `new` finds a last one of 0 |
| ContinuationIndents.PartsSpareIff | thirdparty/astyle/ASBeautifier.cpp:3232-3238 | over any parts without blocks, however nested, the indents of an opener stay at the bottom of every state exactly when every step spares them |
| ContinuationIndents.PartsKeepShape | thirdparty/astyle/ASBeautifier.cpp:1908-1916 | over any parts without blocks, whatever is dropped, the sizes come back, and each template leaves one paren indent |
| ContinuationIndents.TemplateRestores | thirdparty/astyle/ASBeautifier.cpp:2696-2714 | the same for a template: an inner one restores what was before, the outermost then ends a part as a semicolon does; its paren indent stays |
| ContinuationIndents.BalancedKeepsDepths | thirdparty/astyle/ASBeautifier.cpp:2916-2941 | everything balanced, blocks inside brackets included, keeps the paren depth, the template depth and the saved depths |
| ContinuationIndents.SemicolonEnds | thirdparty/astyle/ASBeautifier.cpp:3232-3235 | for all parts without blocks outside of brackets, by a semicolon behind them exactly the indents in front of the statement are left |
| ContinuationIndents.SeparatorKeepsOwn | thirdparty/astyle/ASBeautifier.cpp:3232-3238 | inside a bracket each semicolon, comma or enum comma leaves exactly the indents around the bracket and its own one |
| ContinuationIndents.PartsAdd | thirdparty/astyle/ASBeautifier.cpp:3232-3238 | after any parts without blocks the indents are those of the level followed by what an independent recursion over the parts adds to them |
| ContinuationIndents.ObjCEndCuts | thirdparty/astyle/ASBeautifier.cpp:3542-3548 | the end of an Objective-C class cuts to the top size, and takes that away unless it is the bottom |
| ContinuationIndents.PurgeEmpties | thirdparty/astyle/ASBeautifier.cpp:2923-2927 | from any stacks with bottom 0 the purge ends with no indent, changes nothing but indents and sizes, and leaves only sizes of 0 if they were ordered |
| ContinuationIndents.StepKeepsBottom | thirdparty/astyle/ASBeautifier.cpp:1908-1916 | the size stack keeps its bottom of 0 over any run, so the purge always terminates |
| ContinuationIndents.StepKeepsOrderIff | thirdparty/astyle/ASBeautifier.cpp:3232-3238 | a step keeps the size stack ordered exactly when it is not an unguarded drop, nor an enum comma outside brackets, that takes away an indent the top size counts |
| ContinuationIndents.AlwaysOrderedIff | thirdparty/astyle/ASBeautifier.cpp:2097-2103 | over any run whatsoever the sizes are ordered all the time exactly when no step does that |
| ContinuationIndents.StepKeepsCount | thirdparty/astyle/ASBeautifier.cpp:2717-2796 | over a well bracketed step only as many sizes as there are open brackets and templates are above 0, and an enum comma outside brackets is safe |
| ContinuationIndents.RunKeepsOrderIff | thirdparty/astyle/ASBeautifier.cpp:2717-2796 | over every well bracketed run the sizes stay ordered, enum commas included, exactly when each unguarded drop finds no indent or one that the top size does not count |
| ContinuationIndents.CommaLinesTakeOuter | thirdparty/astyle/ASBeautifier.cpp:2097-2103 | a bracketed initializer in an enum with two comma-led lines: the order breaks and the indent of the assignment around it is lost |
| ContinuationIndents.NewTakesOuter | thirdparty/astyle/ASBeautifier.cpp:3478-3482 | a drop of the own indent of a bracket and then `new`: the order is kept, but the indent around becomes 0 |
| ContinuationIndents.UnbalancedBreaksOrder | thirdparty/astyle/ASBeautifier.cpp:3237-3238 | a run with an unmatched closing bracket after which enum commas break the order |
| ContinuationIndents.TemplateBreaksOrder | thirdparty/astyle/ASBeautifier.cpp:3237-3238 | inside an open template two enum commas break the order |
| ContinuationIndents.EarlyBlockEndBreaksOrder | thirdparty/astyle/ASBeautifier.cpp:3311-3318 | a block that ends inside of an open bracket, and then two enum commas: the order breaks |
| ContinuationIndents.TemplateLeavesParenIndent | thirdparty/astyle/ASBeautifier.cpp:2696-2714 | a template in a bracket leaves a paren indent behind |
| ContinuationIndents.BlockForgetsOuter | thirdparty/astyle/ASBeautifier.cpp:2923-2927 | an assignment around a bracket with a block in it: its indent is lost |
| ContinuationIndents.BlockForgetsOuterIff | thirdparty/astyle/ASBeautifier.cpp:2923-2927 | every bracket with a block inside, at any nesting, ends with no indents, as long as the sizes are ordered: the indents around it are back exactly when there were none, the sizes exactly when there was only the bottom |
| ContinuationIndents.NeverLessThanLast | thirdparty/astyle/ASBeautifier.cpp:1278-1336 | a registered indent is never less than the last one, block arrays and over-long continuations excepted |
| ContinuationIndents.AlignedWithinLimits | thirdparty/astyle/ASBeautifier.cpp:1306-1335 | within the limits the indent is the column on the screen of the next program character, a tab going on to the next tab stop |
| ContinuationIndents.AlignedIsColumn | thirdparty/astyle/ASBeautifier.cpp:1304-1312 | adding up the tabs as the loop does gives that column |
| ContinuationIndents.TabEndsOnStop | thirdparty/astyle/ASBeautifier.cpp:1444-1448 | a tab fills up to the next tab stop |
| ContinuationIndents.ContinuedAtEnd | thirdparty/astyle/ASBeautifier.cpp:1283-1299 | a bracket at the end of its line is continued by the continuation indent, or by two indents exactly when that is beyond the maximum and it is no brace |
| ContinuationIndents.ContinuedInLine | thirdparty/astyle/ASBeautifier.cpp:1301-1335 | a bracket with text behind it: the column of the text less the run-in, the minimum and the maximum, and 0 for a block array |
| ContinuationIndents.CommentIsPassed | thirdparty/astyle/ASBeautifier.cpp:1383-1419 | a comment is passed over up to the first place where it is closed |
| ContinuationIndents.NextCharAtOnce | thirdparty/astyle/ASBeautifier.cpp:1383-1419 | blanks are passed over, a line comment is the end, anything but a slash is the next character |
| ContinuationIndents.Beautifier.GetNextProgramCharDistance | thirdparty/astyle/ASBeautifier.cpp:1383-1419 | the distance to the next character outside of blanks and comments, or to the end |
| ContinuationIndents.Beautifier.RegisterContinuationIndent | thirdparty/astyle/ASBeautifier.cpp:1278-1336 | pushes exactly the columns of the place, which may be just before the first character, the paren indent only if asked to |
| ContinuationIndents.Beautifier.PopLastContinuationIndent | thirdparty/astyle/ASBeautifier.cpp:1908-1916 | cuts the indents to the top size, and never pops the bottom size |
| ContinuationIndents.Beautifier.PurgeContinuationIndents | thirdparty/astyle/ASBeautifier.cpp:2923-2927 | terminates with an empty indent stack |
| ContinuationIndents.Beautifier.OpenBlockBrace | thirdparty/astyle/ASBeautifier.cpp:2920-2940 | saves the paren depth, purges and starts at depth 0 |
| ContinuationIndents.Beautifier.CloseBlockBrace | thirdparty/astyle/ASBeautifier.cpp:3311-3318 | pops one size and restores the saved paren depth |
| ContinuationIndents.Beautifier.CloseOneTemplate | thirdparty/astyle/ASBeautifier.cpp:2704-2713 | the closer of a template |
| ContinuationIndents.Beautifier.DropContinuationIndent | thirdparty/astyle/ASBeautifier.cpp:2097-2103 | takes the last indent away at any depth |
| ContinuationIndents.Beautifier.Parse | thirdparty/astyle/ASBeautifier.cpp:2717-2796 | each character acts on all fields as the step whose indents `PartsAdd`, `SemicolonEnds` and `SeparatorKeepsOwn` determine; and when the order survives |
| Wildcard.Wildcmp | thirdparty/astyle/astyle_main.cpp:2406-2462 | true exactly when the data match the pattern, in both case modes; the termination measure is lexicographic in the latest star, the restart point and the data position |
| Wildcard.LaterStarCovers | thirdparty/astyle/astyle_main.cpp:2426-2455 | once a second star is reached no start of the first one can match that the second does not cover: backtracking only to the latest star loses nothing |
| Wildcard.NewStar | thirdparty/astyle/astyle_main.cpp:2428-2436 | moving to a new star keeps what is still to be decided |
| Wildcard.LaterStartsTooShort | thirdparty/astyle/astyle_main.cpp:2426-2462 | when the data run out within an attempt, no later start can match |
| Wildcard.SplitBegins | thirdparty/astyle/astyle_main.cpp:2406-2462 | a star-free beginning of a pattern is matched character by character |
| Wildcard.WhichCharsMatch | thirdparty/astyle/astyle_main.cpp:2413-2419 | `?` matches anything; otherwise a character matches itself and, without case sensitivity, the other case of the same letter, and no other |
| Wildcard.PlainText | thirdparty/astyle/astyle_main.cpp:2406-2462 | a text without wildcards matches itself alone |
| Wildcard.StarAndText | thirdparty/astyle/astyle_main.cpp:2406-2462 | a star and such a text match exactly the texts that end with it |
| Encoding.Utf8ToUtf16 | thirdparty/astyle/astyle_main.cpp:3538-3607 | the output of the state machine on any bytes, in either byte order |
| Encoding.DecodeIsUtf16 | thirdparty/astyle/astyle_main.cpp:3538-3607 | the UTF-8 form of any text (section 3 of RFC 3629) becomes its UTF-16 form (sections 2.1 and 2.2 of RFC 2781) |
| Encoding.Converter.Utf16ToUtf8 | thirdparty/astyle/astyle_main.cpp:3643-3733 | a block gives the UTF-8 form of its text without the continuation bytes of the last character, in front of it the remaining bytes of the block before, and the state for the next block |
| Encoding.CompleteIffLastIsAscii | thirdparty/astyle/astyle_main.cpp:3657-3733 | a block of exactly its bytes is converted completely if and only if its last character is ASCII |
| Encoding.RoundTrip | thirdparty/astyle/astyle_main.cpp:2614-2633 | with the terminating NUL and one byte more than the length the conversion is complete, and converting back gives the original bytes |
| Encoding.Utf8CharIs | thirdparty/astyle/astyle_main.cpp:3657-3733 | the UTF-8 form of a scalar value has the least number of bytes, with the marks of section 3 of RFC 3629, and adding up their bits gives the value |
| Encoding.Utf16CharIs | thirdparty/astyle/astyle_main.cpp:3538-3607 | the UTF-16 form is one unit or a pair of surrogates that denotes the value by section 2.2 of RFC 2781, the upper byte of a unit first in big-endian text |
| Encoding.BlocksJoinIff | thirdparty/astyle/astyle_main.cpp:816-841 | the outputs of two blocks join to that of the whole exactly when the character at the seam has no bits below its first byte |
| Encoding.BlocksAreCompleteIff | thirdparty/astyle/astyle_main.cpp:816-841 | for any list of nonempty blocks the joined outputs are the UTF-8 form of the whole text if and only if no character at a seam has bits below its first byte and the very last character is ASCII |
| Encoding.ReadFile | thirdparty/astyle/astyle_main.cpp:816-841 | the read loop over the converter yields those outputs, so a file is converted completely exactly under that condition |
| Encoding.LastByteMissing | thirdparty/astyle/astyle_main.cpp:816-841 | a file of one block that ends in U+00E9 loses its last byte |
| Encoding.StaleRest | thirdparty/astyle/astyle_main.cpp:3643-3733 | the continuation bytes written without the code point are right exactly when those bits are zero |
| Encoding.Utf8LengthFromUtf16 | thirdparty/astyle/astyle_main.cpp:3510-3532 | the UTF-8 length of NUL-free big-endian text; for little-endian text two bytes too many for each surrogate pair |
| Encoding.NoPairsIff | thirdparty/astyle/astyle_main.cpp:3510-3532 | the excess is zero exactly when no character needs a pair |
| Encoding.PairCountsSix | thirdparty/astyle/astyle_main.cpp:3510-3532 | U+1F600 in little-endian is counted as six bytes and has four |
| Encoding.Utf16LengthFromUtf8 | thirdparty/astyle/astyle_main.cpp:3614-3637 | the number of bytes of the UTF-16 form |
| Encoding.Utf16Len | thirdparty/astyle/astyle_main.cpp:3497-3503 | half the bytes before the terminating NUL |
| Encoding.ConvertUtf16ToUtf8 | thirdparty/astyle/astyle_main.cpp:2614-2633 | the library entry point returns the complete UTF-8 form and a NUL, in a buffer two bytes too large for each pair |
| LineEnds.ConvertLineEnds | thirdparty/astyle/astyle_main.cpp:355-436 | the loop's output is the text with the same lines and the requested line end |
| LineEnds.ConvertKeepsLines | thirdparty/astyle/astyle_main.cpp:355-436 | no line content is lost, added or changed; CRLF, CR and LF each end one line |
| LineEnds.ConvertTwice | thirdparty/astyle/astyle_main.cpp:355-436 | converting to one kind and then another is converting straight to the other |
| LineEnds.LinesOfJoin | thirdparty/astyle/astyle_main.cpp:355-436 | lines joined with any line end are read back as they are |
| LineEnds.LineEndIsOne | thirdparty/astyle/astyle_main.cpp:363-430 | each line end in front of any text adds one line: LF even before CR, and CR unless LF follows |
| StreamIterator.Iterator.NextLine | thirdparty/astyle/astyle_main.cpp:145-223 | the next line, the new position, the end-of-file flag, and the counts as `ReadAll` adds them up; the output line end is the most frequent counted kind |
| StreamIterator.Iterator.TakeLineEnd | thirdparty/astyle/astyle_main.cpp:178-207 | CR+LF and LF+CR are one terminator and add one to the Windows count, LF to that of Linux and CR to that of old Mac; a single one at the very end adds nothing |
| StreamIterator.TerminatorsAre | thirdparty/astyle/astyle_main.cpp:178-207 | exactly CR+LF and LF+CR are terminators of two characters; CR and LF are alone when not followed by the other |
| StreamIterator.Iterator.UpdateOutputEol | thirdparty/astyle/astyle_main.cpp:209-220 | the most frequent kind, ties going to Windows and then to Linux |
| StreamIterator.MostFrequentIsUnique | thirdparty/astyle/astyle_main.cpp:209-220 | that rule names exactly one kind |
| StreamIterator.Iterator.ReadAll | thirdparty/astyle/astyle_main.cpp:145-223 | all lines to the end, which with their terminators are the whole input; from the terminators returned, the Windows count grows by the CR+LF and LF+CR among them, the other two by the LF and CR less the uncounted last one; the final output line end is the most frequent of all those counted, and of all terminators exactly when the uncounted one does not change that |
| StreamIterator.MostFrequentOfAllIff | thirdparty/astyle/astyle_main.cpp:178-220 | the exact condition under which the one terminator that is not counted leaves the most frequent kind as it is |
| StreamIterator.AllButUncounted | thirdparty/astyle/astyle_main.cpp:178-207 | every terminator is counted but a single line-end character at the very end |
| StreamIterator.OneLineIsWindows | thirdparty/astyle/astyle_main.cpp:178-220 | a file of one line with LF gets the line end of Windows |
| StreamIterator.Iterator.PeekNextLine | thirdparty/astyle/astyle_main.cpp:230-261 | the line that the next read would return, and the remembered start |
| StreamIterator.Iterator.PeekReset | thirdparty/astyle/astyle_main.cpp:266-272 | back to the remembered position, no longer at the end of the file |
| StreamIterator.Iterator.PeekSession | thirdparty/astyle/astyle_main.cpp:230-272 | a session of at most n looks returns a prefix of the lines to come, and restores the position exactly when it does not start at position 0, has at most one look, or the first look already raises the end of the file |
| StreamIterator.Iterator.PeekTwice | thirdparty/astyle/astyle_main.cpp:230-272 | two looks at the beginning of a file of two lines leave the position at the second line |
| NumberFormat.GetNumberFormat | thirdparty/astyle/astyle_main.cpp:1270-1306 | the loop groups the decimal digits by the sizes and joins the groups with the separator |
| NumberFormat.GroupsAreGrouping | thirdparty/astyle/astyle_main.cpp:1270-1306 | counted from the right group k has size grouping[min(k, last)], the leftmost being nonempty and no larger (section 7.11.2.1 of ISO C99) |
| NumberFormat.OnlyGrouping | thirdparty/astyle/astyle_main.cpp:1270-1306 | there is no other way to group the digits |
| NumberFormat.NoFurtherGrouping | thirdparty/astyle/astyle_main.cpp:1270-1306 | a size not below the number of digits ends the grouping |
| NumberFormat.DeletingSeparators | thirdparty/astyle/astyle_main.cpp:1270-1306 | deleting the separators gives back the digits |
| NumberFormat.FormattedDenotes | thirdparty/astyle/astyle_main.cpp:1270-1306 | and these denote the number |
| NumberFormat.SignAloneIff | thirdparty/astyle/astyle_main.cpp:1270-1306 | the sign of a negative number stands alone in front of a separator exactly when the digits fill their leftmost group |
| NumberFormat.FullIffSize | thirdparty/astyle/astyle_main.cpp:1270-1306 | that is, when the leftmost group of the digits has its full size |
| NumberFormat.SizesAre | thirdparty/astyle/astyle_main.cpp:1270-1306 | group k has size k of the grouping string, and all groups beyond it the last size |
| NumberFormat.SignAlone | thirdparty/astyle/astyle_main.cpp:1270-1306 | -123 in groups of three |
| NumberFormat.SignedDenotes | thirdparty/astyle/astyle_main.cpp:1270-1306 | deleting the separators of a negative number gives the sign and its digits |
| WordLookup.FindHeader | thirdparty/astyle/ASResource.cpp:665-702 | returns a header exactly when it is in the table, is the whole word at the position, and is not excluded by what follows |
| WordLookup.EarlyExitIsSafe | thirdparty/astyle/ASResource.cpp:677-681 | once the text sorts below an entry no later entry of a sorted table is the word |
| WordLookup.BuildHeaders | thirdparty/astyle/ASResource.cpp:249-313 | the table of each language is sorted by name, holds exactly the words entered, and all of them are words, as the search needs |
| WordLookup.HeadersAreWords | thirdparty/astyle/ASResource.cpp:249-311 | every header entered consists of legal name characters |
| WordLookup.GetCurrentWord | thirdparty/astyle/ASResource.cpp:749-760 | the whole word at the position |
| WordLookup.WordIsUnique | thirdparty/astyle/ASResource.cpp:749-760 | there is only one whole word at a position |
| WordLookup.FindKeyword | thirdparty/astyle/ASResource.cpp:705-725 | true exactly when the keyword is the whole word there and neither a comma nor a closing paren follows |
| WordLookup.SearchesAgree | thirdparty/astyle/ASResource.cpp:665-725 | the two searches, written separately, agree on every word other than the accessors |
| WordLookup.ExcludedByNext | thirdparty/astyle/ASResource.cpp:687-699 | what excludes a header is the next character that is not blank: a comma or closing paren, for accessors and `default` also a semicolon, opening paren or equals sign; at the end of the line nothing does |
| WordLookup.NameChars | thirdparty/astyle/ASResource.cpp:763-773 | the characters of names in each language |
| WordLookup.CompareOpposite | thirdparty/astyle/ASResource.cpp:175-178 | the name order is antisymmetric and zero only for equal names |
| WordLookup.CompareTransitive | thirdparty/astyle/ASResource.cpp:175-178 | and transitive |
| WordLookup.FirstDifference | thirdparty/astyle/ASResource.cpp:175-178 | the first difference decides the order, and a proper prefix comes first |
| WordLookup.FindOperator | thirdparty/astyle/ASResource.cpp:728-745 | the longest operator of the table that the text begins with, if any |
| WordLookup.BuildOperators | thirdparty/astyle/ASResource.cpp:467-529 | the operators of each language, exactly those entered, the longest first |
| WordLookup.BuildAssignmentOperators | thirdparty/astyle/ASResource.cpp:187-398 | the two tables of the beautifier are sorted by length as the search needs |
| WordLookup.OperatorAt | thirdparty/astyle/ASResource.cpp:728-745 | with those tables the search gives the longest operator of the language |
| LineSplitter.Formatter.TestForTimeToSplitFormattedLine | thirdparty/astyle/ASFormatter.cpp:7100-7182 | for every maximum length: with the candidates within it before the end of the line, a split happens exactly when the line is too long, the ready line has been read, and a candidate within is long enough or a pending one is inside the line; the old line is the ready line, then blanks, then the new line; surviving candidates keep their characters |
| LineSplitter.Formatter.FindFormattedLineSplitPoint | thirdparty/astyle/ASFormatter.cpp:7184-7243 | for every maximum length: 0 exactly when no candidate within it makes the first line long enough and none is pending; one of the candidates at 10 or beyond, or else the first pending one; the preferred kinds |
| LineSplitter.FromLength31 | thirdparty/astyle/ASFormatter.cpp:7187-7206 | from a maximum length of 31 on any candidate at 10 or beyond is long enough |
| LineSplitter.NearerTakenInstead | thirdparty/astyle/ASFormatter.cpp:7187-7206 | for every length: when none is long enough though one lies at 10 or beyond, exactly a too near comma or paren has been taken instead |
| LineSplitter.NotFromLength30 | thirdparty/astyle/ASFormatter.cpp:7187-7206 | a maximum length of 30 with a comma at 9 and white space at 20: no split |
| LineSplitter.UpdatedIsInside | thirdparty/astyle/ASFormatter.cpp:6848-6950 | after any update of a line longer than the maximum length all candidates within it are before the end of the line |
| LineSplitter.Formatter.AdjustMaxSplitPoints | thirdparty/astyle/ASFormatter.cpp:7124-7154 | pending candidates take the place of those before them, all moved by the split point |
| LineSplitter.Formatter.SplitAt | thirdparty/astyle/ASFormatter.cpp:7100-7182 | the lines and all ten candidates after a split |
| LineSplitter.SplitLosesNothing | thirdparty/astyle/ASFormatter.cpp:7109-7173 | cutting and dropping the blanks in between loses no other character |
| LineSplitter.CandidateOfSuffix | thirdparty/astyle/ASFormatter.cpp:7124-7173 | a candidate moved by the cut still points to the same character of its kind |
| LineSplitter.Formatter.UpdateFormattedLineSplitPoints | thirdparty/astyle/ASFormatter.cpp:6848-6950 | exactly the place of `WhichCharsSplit` is registered, as the latest within the maximum length or as pending |
| LineSplitter.CharPlaceIsCandidate | thirdparty/astyle/ASFormatter.cpp:6848-6950 | that place is of its kind and next to the character; it is within the maximum length, or not below it when pending |
| LineSplitter.WhichCharsSplit | thirdparty/astyle/ASFormatter.cpp:6848-6950 | kind by kind and in both directions: which last character makes a place to split, beside which neighbours, at its own position or behind it, and whether it fits |
| LineSplitter.WhatIsRegistered | thirdparty/astyle/ASFormatter.cpp:6848-6950 | after an update exactly the one point of the ten that the place is for is the place, all others are as before; in a block to be kept all are cleared |
| LineSplitter.WhichBlocksBreak | thirdparty/astyle/ASFormatter.cpp:7067-7096 | which kinds of text and block let a line be split, and which forget the candidates |
| LineSplitter.OperatorChars | thirdparty/astyle/ASResource.cpp:788-800 | the punctuation that counts as an operator |
| LineSplitter.Formatter.UpdateFormattedLineSplitPointsOperator | thirdparty/astyle/ASFormatter.cpp:6952-7043 | the same for operators |
| LineSplitter.OperatorPlaceIsCandidate | thirdparty/astyle/ASFormatter.cpp:6952-7043 | an operator's place is at the operator or at the blank in front of it |
| LineSplitter.WhichOperatorsSplit | thirdparty/astyle/ASFormatter.cpp:6952-7043 | for each class of operators, in both directions, whether it makes a place, where, and whether it fits: logical ones behind or in front with the blank, comparisons behind, arithmetic in front, assignments behind if there is room |
| LineSplitter.Formatter.UpdateFormattedLineSplitPointsPointerOrReference | thirdparty/astyle/ASFormatter.cpp:7049-7065 | the given index is registered unless a later one is; it is a candidate when a blank is there |
| LineSplitter.Formatter.IsOkToSplitFormattedLine | thirdparty/astyle/ASFormatter.cpp:7067-7096 | when the line may be split, by its kind of text and the innermost brace, and when it forgets the candidates |
| LineSplitter.Formatter.AppendChar | thirdparty/astyle/ASFormatter.cpp:2669-2685 | one character more; exactly when a split follows; both lines and all candidates afterwards; text is lost exactly when a registered break overwrites an unread ready line with text in it |
| LineSplitter.Formatter.AppendText | thirdparty/astyle/ASFormatter.cpp:2669-2685 | any text appended to an empty line, no block forbidding a split: with a plain comma or blank between 10 and the maximum length the line is split as soon as it is longer, and the line that is ready is a beginning of the text of 10 characters up to the maximum; a blank needs a maximum of 31 or more |
| LineSplitter.Formatter.AppendSequence | thirdparty/astyle/ASFormatter.cpp:2694-2702 | the same for a sequence, which registers no place |
| LineSplitter.Formatter.AppendOperator | thirdparty/astyle/ASFormatter.cpp:2710-2723 | the same for an operator |
| LineSplitter.Formatter.AppendSpacePad | thirdparty/astyle/ASFormatter.cpp:2729-2745 | a blank, unless there is one, and exactly when a split follows |
| LineSplitter.Formatter.AppendSpaceAfter | thirdparty/astyle/ASFormatter.cpp:2751-2767 | a blank, unless one follows, and exactly when a split follows |
| LineSplitter.Formatter.BreakLine | thirdparty/astyle/ASFormatter.cpp:2772-2796 | the line becomes the ready line; a split keeps the candidates, any other break clears them; text is lost exactly when the ready line was not read and has some |
| IndentEdit.UnindentUndoesIndent | thirdparty/astyle/ASEnhancer.cpp:256-286 | unindenting by n undoes indenting by n for every nonblank line; in force-tab mode exactly for lines with canonical leading blanks |
| IndentEdit.ForceTabWidths | thirdparty/astyle/ASEnhancer.cpp:751-795 | in force-tab mode each edit changes the width by exactly n indents and leaves canonical blanks |
| IndentEdit.Enhancer.IndentLine | thirdparty/astyle/ASEnhancer.cpp:256-286 | the indented line and the number of characters counted; where the force-tab conversion is out of range |
| IndentEdit.Enhancer.UnindentLine | thirdparty/astyle/ASEnhancer.cpp:751-795 | the unindented line and the number of characters, or columns, erased; nothing if there is less to erase |
| IndentEdit.Enhancer.ConvertForceTabIndentToSpaces | thirdparty/astyle/ASEnhancer.cpp:167-182 | the leading blanks become spaces of the same width |
| IndentEdit.Enhancer.ConvertSpaceIndentToForceTab | thirdparty/astyle/ASEnhancer.cpp:188-196 | a tab in the place of each tab length of leading blanks, whatever they are; it fails exactly on blank lines |
| IndentEdit.ReplacedSpaces | thirdparty/astyle/ASEnhancer.cpp:188-196 | when the leading blanks are spaces the width stays the same |
| IndentEdit.IndentedIs | thirdparty/astyle/ASEnhancer.cpp:256-286 | what is put in front of a line in each mode, and that an empty line stays empty unless it is filled |
| IndentEdit.NotCanonical | thirdparty/astyle/ASEnhancer.cpp:751-795 | a line with eight spaces where a tab is eight wide comes back with a tab |
| OneLineBlock.EnhancerIsOneLineBlockReached | thirdparty/astyle/ASEnhancer.cpp:394-460 | true exactly when the brace is closed on its line outside quotes, escapes and comments |
| OneLineBlock.FormatterIsOneLineBlockReached | thirdparty/astyle/ASFormatter.cpp:3354-3444 | nonzero exactly then, so the two scanners agree; and which code it returns |
| OneLineBlock.ClosesIffBalanced | thirdparty/astyle/ASFormatter.cpp:3367-3441 | a scan that keeps a depth finds a closing brace exactly when some beginning of the live text balances the open braces |
| OneLineBlock.ClosingIsFirst | thirdparty/astyle/ASFormatter.cpp:3367-3441 | it stops at the place of the first balance, having seen exactly the live characters before |
| OneLineBlock.LiveOfPieces | thirdparty/astyle/ASEnhancer.cpp:394-460 | in every line that consists of characters, escapes, quoted texts, block comments and perhaps a line comment, the live text is exactly the characters of their own; a single quote between hexadecimal digits is one |
| OneLineBlock.DepthCounts | thirdparty/astyle/ASFormatter.cpp:3412-3420 | the depth is the number of open braces less that of closed ones |
| OneLineBlock.EmptyBlock | thirdparty/astyle/ASFormatter.cpp:3417-3440 | the code for an empty block is given exactly when nothing but blanks, semicolons and open braces comes before the first balance, and the block does not look like an array |
| OneLineBlock.ArrayBlock | thirdparty/astyle/ASFormatter.cpp:3417-3440 | the code for an array exactly when the last text before the first balance is no closing brace, a comma follows it, and no parenthesis is open |
| SwitchStack.SwitchRestores | thirdparty/astyle/ASEnhancer.cpp:661-741 | a complete switch statement, however nested, restores the switch variables, the stack, its depth and the brace count to their values before the `switch` |
| SwitchStack.ItemsKeep | thirdparty/astyle/ASEnhancer.cpp:661-741 | inside a switch body everything balanced keeps the nesting |
| SwitchStack.StepKeepsMatched | thirdparty/astyle/ASEnhancer.cpp:624-649 | the depth is the length of the stack over any step, so nothing is restored from an empty stack |
| SwitchStack.BypassOnlyEnters | thirdparty/astyle/ASEnhancer.cpp:624-649 | with case indent, or on preprocessor lines, switches are entered and never left |
| SwitchStack.RestoredIffNotBypassed | thirdparty/astyle/ASEnhancer.cpp:624-649 | all lines alike: a switch statement is left again if and only if they are not bypassed |
| SwitchStack.OnlyEffectiveCount | thirdparty/astyle/ASEnhancer.cpp:624-649 | for any mix of bypassed and other lines the state is exactly that of the tokens that are not bypassed, but for the braces that are counted on bypassed lines |
| SwitchStack.MixedRestores | thirdparty/astyle/ASEnhancer.cpp:624-649 | preprocessor lines anywhere in a switch statement: variables, stack and depth are restored if the rest is a complete switch statement, and the brace count if and only if the bypassed braces cancel out |
| SwitchStack.DirectivesRestore | thirdparty/astyle/ASEnhancer.cpp:624-649 | directives anywhere within a switch statement: if the lines outside of them form the statement and no directive holds the word `switch`, variables, stack and depth are restored, and the brace count if and only if the braces on directives cancel out |
| SwitchStack.SwitchInDirective | thirdparty/astyle/ASEnhancer.cpp:624-632 | the word `switch` on a preprocessor line is not bypassed: the switch around it is not left at its brace |
| SwitchStack.StepKeepsSound | thirdparty/astyle/ASEnhancer.cpp:101-160 | no unindent goes below the margin, and before its end a line is unindented at most once |
| SwitchStack.EndUnindentsOnce | thirdparty/astyle/ASEnhancer.cpp:156-160 | at its end a line is unindented at most once in all, lines with a comment of their case excepted |
| SwitchStack.FileShows | thirdparty/astyle/ASEnhancer.cpp:101-160 | for every text laid out in lines, switches nested to any depth: each line is unindented by the number of braced cases around it, by a recursion on the layout; a closing brace alone on its line goes with its switch, a comment behind a case with the next label, a label with an attached brace with the labels |
| SwitchStack.BypassNeverUnindents | thirdparty/astyle/ASEnhancer.cpp:624-649 | bypassed lines are never unindented |
| SwitchStack.Enhancer.ProcessSwitchBlock | thirdparty/astyle/ASEnhancer.cpp:661-741 | what a brace or a case label does to the switch fields, and the unindent at the end of a switch |
| SwitchStack.Enhancer.EnhanceFile | thirdparty/astyle/ASEnhancer.cpp:101-160 | the enhancer object over a whole file gives each line that number of unindents |
| SwitchStack.Enhancer.Parse | thirdparty/astyle/ASEnhancer.cpp:567-649 | a step of the line parser, with the bypass; the unindents that the steps give are those of `FileShows` |
| SwitchStack.Enhancer.ParseSwitchStatement | thirdparty/astyle/ASEnhancer.cpp:567-649 | the enhancer object over a switch statement with preprocessor lines among its own: the fields as before, and exactly when the brace count is |
| PngWarnings.FormattedWarning | thirdparty/libpng/pngerror.c:284-357 | passes on exactly the first 191 characters, or all, of the full substitution of the message, for all messages and parameters, and the message itself without parameters |
| PngWarnings.QuotedIsLiteral | thirdparty/libpng/pngerror.c:301-347 | any text with every `@` doubled stands for itself, whatever follows |
| PngWarnings.ParameterInPlace | thirdparty/libpng/pngerror.c:301-347 | a parameter between any two texts is replaced and the texts are kept |
| PngWarnings.MarkIsDropped | thirdparty/libpng/pngerror.c:301-347 | an `@` in front of any character but the digits 1 to 8 is dropped and the character kept |
| PngWarnings.LastMarkIsKept | thirdparty/libpng/pngerror.c:301-347 | an `@` at the end is kept |
| PngWarnings.WithoutParameters | thirdparty/libpng/pngerror.c:301-347 | without parameters a message stands for itself |
| PngWarnings.FindParameter | thirdparty/libpng/pngerror.c:308-320 | the search finds the parameter that a digit names, and none for any other character |
| PngWarnings.CopyParameter | thirdparty/libpng/pngerror.c:322-331 | copies the parameter up to its NUL or its end, as far as there is room |
| PngWarnings.SafeCat | thirdparty/libpng/pngerror.c:111-125 | appends as much as fits and a NUL, touches nothing else, and writes nothing without room for the NUL |
| PngWarnings.CatAllIsOneCat | thirdparty/libpng/pngerror.c:907-912 | appending piece by piece is cutting off the joined text |
| PngWarnings.Parameters.Set | thirdparty/libpng/pngerror.c:246-252 | one parameter becomes the first 31 characters of the text, the others stay; a number that is no parameter's is ignored |
| PngWarnings.Parameters.SetSigned | thirdparty/libpng/pngerror.c:262-281 | a signed number is stored whole, with its sign |
| PngWarnings.Parameters.constructor | thirdparty/libpng/pngerror.c:246-252 | eight separate parameters of 32 characters |
| PngWarnings.WarnAbout | thirdparty/libpng/pngerror.c:246-357 | a text and a signed number set as parameters arrive in the message between the texts around them, cut at 191 characters |
| PngWarnings.FormatBuffer | thirdparty/libpng/pngerror.c:434-475 | from the buffer four bytes can be read back that are the chunk name, the highest byte first, and behind them follow a colon and the first 195 characters of the message, or nothing; all is within the buffer of the callers |
| PngWarnings.NameRoundTrip | thirdparty/libpng/pngerror.c:440-457 | the four bytes of the chunk name, and the message, can be read back from the text |
| PngWarnings.ByteTextIs | thirdparty/libpng/pngerror.c:429-455 | letters stand for themselves, any other byte is two upper case hexadecimal digits in brackets |
| PngWarnings.ChunkTextReads | thirdparty/libpng/pngerror.c:434-475 | the text of every chunk name and message, read back |
| PngNumbers.FormatNumber | thirdparty/libpng/pngerror.c:131-206 | writes, from the end of the buffer, the text of the number, or as many of its last characters as there is room for, and touches nothing before or after |
| PngNumbers.IntegerFormats | thirdparty/libpng/pngerror.c:163-178 | the u, 02u, x and 02x texts denote the number and have no leading zero beyond the minimum width |
| PngNumbers.FixedDenotesIff | thirdparty/libpng/pngerror.c:152-202 | the fixed text denotes number/100000 if and only if the number is 0, its last five digits are not all zero, or its integer part does not end in 0 |
| PngNumbers.ZerosDropped | thirdparty/libpng/pngerror.c:152-202 | ten units without a fraction are written as one |
| PngNumbers.WithoutOutput | thirdparty/libpng/pngerror.c:152-202 | what the fixed format writes: integer part, point and fraction without the zeros at its end, or an integer without the zeros at its end |
| PngNumbers.StrippedDenotes | thirdparty/libpng/pngerror.c:155-160 | an integer part whose zeros are dropped is too small, except when there are none |
| PngNumbers.NumberFits | thirdparty/libpng/pngerror.c:262-281 | every 64-bit number has its text, a sign and a NUL within 24 characters |
| PngNumbers.FormatSigned | thirdparty/libpng/pngerror.c:262-281 | the text of a signed 32-bit number, its negation never overflowing |
| Numerals.ValueOfNumeral | thirdparty/libpng/pngerror.c:163-178 | the digits denote the number, in base 10 and 16 |
| Numerals.NoLeadingZeros | thirdparty/libpng/pngerror.c:163-178 | at least the minimum of digits, and no leading zero beyond it |
| Numerals.DigitsAre | thirdparty/libpng/pngerror.c:428-431 | the digits are 0 to 9 and upper case A to F |

## Left out

- HeaderStacks.LineParser.ReachHeader: popping the empty header stack at an `else if`, which only several statement ends on one line can bring about, is undefined in C++ and changes nothing here; one statement end per line is assumed as in the default mode.
- HeaderStacks: `try`, `catch`, `case` and class headers, whose restacking has the shape of the one for `else`, and all other indent options; the indent is that of the default style.
- PreprocessorStacks: `#define` clones, `extern "C"` braces and the preprocessor-indent options; the settings that the formatter copies into the active clone before each line belong to the line.
- PreprocessorStacks.Beautifier.CloseConditional: deletion of the clones that are cut off is left to the collector.
- ContinuationIndents.Beautifier.RegisterContinuationIndent: just before the first character of a line the source may read a character out of range, to see whether it is an open brace; here it is none. Which characters open an array brace or a block, and whether an indent is registered at all, comes in with the tokens.
- LineSplitter: what is beside the formatted line (next and previous characters, the innermost brace, whether the text is a comment, quote or the like, the rest of the input line) comes in as parameters; requests for empty lines, the position of a comment, the counter of padding and skipping of input blanks after a split are not modelled.
- SwitchStack.Enhancer.ProcessSwitchBlock: the unindents of a line are recorded as numbers; what they do to its text is in `IndentEdit`, and the change of the index is not modelled.
- SwitchStack.FileShows: the layouts are those of one statement, label or brace to a line, with the brace of a switch or a case possibly attached and the closing brace of a switch possibly behind text; for all other token runs the steps, their restoring of the fields and `StepKeepsSound` hold.
- SwitchStack: quotes in a line, and the debug assertion that a switch has no more braces than the file.
- LineSplitter.Formatter.FindFormattedLineSplitPoint: the two multipliers are exact decimals over the reals, not binary floating point.
- StreamIterator.Iterator.PeekSession: the assertion in the reset is not modelled; the result is that of a build without assertions.
- Encoding: ill-formed Unicode, blocks cut inside of a character, and detection of the byte order; the host is little-endian.
- NumberFormat.GetNumberFormat: sizes are positive, as in section 7.11.2.1 of ISO C99; a negative `char` in the grouping string is not modelled.
- WordLookup.BuildHeaders: `std::sort` is an insertion sort here, of which only the sorted permutation is used; the other tables are filled in the same way.
- Wildcard.Wildcmp: `tolower` is that of the C locale.
- PngWarnings.FormattedWarning: a last parameter that fills its whole array is read one byte past its end before the copying stops; the model stops at the end. The removal of error numbers in front of a message happens in the function called last.
- PngWarnings.SafeCat: a missing buffer, for which the function does nothing.
- PngNumbers.FormatSigned: `png_alloc_size_t` has 64 bits.
- The formatter's character loop with its heuristics, `ASFormatter::processPreprocessor`, option parsing, files, directories, locales and translations: no crisp specification, or input and output.
- `setjmp`/`longjmp` and the default printing of errors in libpng.
- OpenJPEG's codec itself is not part of this model.
