# A verified model of the toolchain's algorithmic core

This project models seven components of the toolchain and proves what each of them is for:
the schedule explorer, the lexer, the JSON kernels, counter inference, C layout, format specs
and the program fuzzer with its reducer.  The components do not depend on each other; they
share only the `Option` and `Result` of `Wrappers.dfy`.

Where the program changes things step by step, the model does too: `Explorer`, `Lexer`,
`Parser`, `Decide` and `Generator` are classes with the same fields, and the other loops are
methods.  A specification function says what such a method leaves behind, the method is proved
to leave exactly that, and the laws are then proved of the function.  The main results read as
follows.

**Schedule explorer** (`Scheduler.dfy`, `Explore*.dfy`).  The interpreter is a deterministic
machine: a finite tree of decisions with an operation log and an outcome.  For every machine and
every setting, no schedule is executed twice and no replay diverges; a naive search that ends
with a closed frontier has executed every complete schedule, so `stable` means that all of them
agree; a bounded search executes exactly the schedules within the bound; a DPOR search answers
every race it has seen, by a schedule it ran or a task it left asleep.  Each outcome carries the
choices of the first schedule that was observed so and how many were.  Where footprints are fixed by the choices and turns that do not conflict
commute, a sleeping alternative may be skipped: whatever it would do next, the legal schedule that
runs it first, at the level where it was explored, and then makes just the turns the path made
since, reaches the same state.

**Lexer** (`Lex*.dfy`).  Every input, malformed or not, gives a well-nested word of tokens in
source order.  The text under each token is a spelling of it, the longest there is, and in code
nothing but trivia stands between two.  A newline that calls for a terminator gets one, and an inserted terminator stands
where the rules allow it, save for one exact exception.  A plain literal round trips.  The text the
finished stream shows for a closed multiline literal, wherever it is and whatever it holds, is its
whole text with every line dedented.  It is reported exactly when a source line of its own, above
the closing one, is neither blank nor begins with the closing indentation; and when it is not
reported, each line of its text that begins at a line start of the source is blank or loses exactly
that indentation.

**JSON kernels** (`Json*.dfy`).  The parser accepts exactly the texts of a separate grammar,
which spells a document from its parts, and returns the tree they mean.  Compact text reads back
as the tree it came from, a query finds exactly what its path addresses, and querying a query's
answer is querying the joined path.

**Counter inference** (`NumInfer.dfy`, `Counter*.dfy`).  The forest of counters decides exactly
what the set of observations says, whatever the order in which they were made.

**C layout** (`Layout*.dfy`).  A struct has exactly the layout that the aggregate rules of section
3.1.2 of the System V AMD64 psABI give it, packed or not, and the leaves of nested paths are
inside, aligned and disjoint.

**Format specs** (`Fmt*.dfy`).  Rendering fills its width, keeps the value read back, and every
spec the parser can return is the meaning of its own spelling.

**Fuzzer and reducer** (`Fuzz*.dfy`).  The programs that come out of a stream of draws are exactly
those of a grammar; for every stream the program is well scoped and stops; for every predicate
the reducer ends with a 1-minimal program that satisfies it.

## Where the code and its comments part

* **A footprint is not fixed by the prefix.**  `src/explore.rs:416-418` says that a slice's
  footprint is deterministic per prefix.  Operations are filed under the last *task* decision
  (`src/eval/sched.rs:700-727`), so what runs after an `Arm` decision still belongs to the task
  slice above it, and another arm may give that slice another footprint.  `ExploreArms` builds a
  machine on which a sleeper stays asleep past a slice that conflicts with it (`StaleSleeper`)
  and a search with a closed frontier and a stable report misses an outcome (`ArmsBreakSleep`).
  `DeterminedMeansArmsAgree` gives the exact condition: footprints are fixed by the choices up to
  the slice's own if and only if, at every arm met inside a slice, all alternatives are followed by
  the same touches up to the next task decision.  The results of `ExploreCommute` ask for fixed
  footprints and no more.  `SleepersAreJustified` needs no assumption: it speaks of the footprints
  that were observed.
* **An unclosed delimiter gets a terminator.**  The end-of-input rule (`src/lex.rs:799-811`) runs
  after the stack was drained (`src/lex.rs:2084-2113`), so it cannot see an open parenthesis:
  `(1` ends in a terminator (`UnclosedParenIsTerminated`).  `LawfulUnlessOpen` gives the exact
  condition, on the stack as it is when the text runs out: the terminator law fails if and only if
  the innermost delimiter outside every string is then a parenthesis or a bracket, and a string is
  still open or the last token ends a statement.
* **A line that an escape begins is stripped unjudged.**  `src/lex.rs:2116-2122` says that a line
  which cannot give the closing column's blanks is reported.  The check reads source lines and the
  strip decoded text, where an escape may have spelt a newline: the line after it loses what blanks
  it has, and nothing is reported (`SpeltNewlineIsUnjudged`).  `ClosedLiteralLosesItsMargin` is about
  every line that begins in the source, and `SpeltMeansEscape` says that no other line is begun
  but by such an escape.
* **A code may begin with a plus sign.**  `hex4` (`src/json.rs:455-461`) reads its digits with a
  function that admits a sign, so `\u+041` is read, which section 7 of RFC 8259 has no room for
  (`PlusSignIsRead`).  The grammar here includes that case; in all else it is the RFC's.
* **The reducer can overlook the second arm of an `if`.**  A path of indices does not say which arm
  it enters (`src/fuzz.rs:775-825`), and the first arm is tried first, so a statement of the second
  arm may stay although dropping it alone would do (`ElseArmIsShadowed`, `ReducerCanStopEarly`).
  `EachEditHitsUnlessShadowed` gives the exact condition for every statement at any depth: its
  offered removal or unwrapping edits it, and nothing else, if and only if wherever its place enters
  a second arm the rest of its path addresses nothing in the first arm (for unwrapping, no
  container).  `MinimalWhereUnshadowed` draws the conclusion for what `Reduce` returns.

## Model

| member | source | states |
|---|---|---|
| Scheduler.ReplayIsExact | src/explore.rs:353-372 | Against a deterministic machine a plan whose recorded decisions are faithful never diverges; the run follows the forced choices, takes the front of the queue afterwards, and ends at a complete schedule with that schedule's decisions, log and outcome |
| Scheduler.SliceAfter | src/eval/sched.rs:700-727 | The slice operations are filed under is the last task decision made before them, and there is none only when no task was scheduled yet |
| ExploreOnce.InheritKeeps | src/explore.rs:430-445 | Sleep inheritance changes sleep sets only; nodes below the forced prefix keep theirs, and each later node sleeps with what the slice above it left asleep |
| ExploreOnce.GrowKeeps | src/explore.rs:447-470 | Growing backtrack sets from races changes nothing else of the path and takes nothing out of a set |
| ExploreModel.LeastOf | src/explore.rs:560-563 | A nonempty set of waiting alternatives has a least one, so the ascending walk is well defined |
| ExploreModel.ScanCounts | src/explore.rs:555-617 | Looking for the next alternative executes nothing |
| ExploreModel.TurnCounts | src/explore.rs:333-368 | A turn of the loop that goes on has counted exactly one more execution and had budget for it, the measure by which the loop ends |
| ExploreOnce.PlanIsFaithful | src/explore.rs:353-372 | The plan taken from a path that the search built records the decisions the machine will make again |
| ExploreOnce.RunIsNew | src/explore.rs:353-414 | A turn's replay does not diverge, and the schedule it executes is none of those executed before |
| ExploreOnce.TakenIsReady | src/explore.rs:594-606 | Taking an alternative leaves a path whose run will again be new: every executed schedule left it at a choice already done |
| ExploreOnce.TurnKeeps | src/explore.rs:333-622 | Every turn keeps the accounts: executed schedules complete and pairwise distinct, one count in the outcomes for each |
| ExploreOnce.NoScheduleTwice | src/explore.rs:317-625 | In every mode, naive, DPOR, pruned or bounded: the executed schedules are complete, legal and pairwise distinct, the outcome counts add up to `schedules`, and the search comes to an end |
| ExploreOnce.BudgetIsSlack | src/explore.rs:333-351 | The search never executes more schedules than the tree has, so the budget note appears only when the budget is no larger than that number |
| ExploreAll.WeighMeaning | src/explore.rs:560-584 | A node's pick respects the bound; what is skipped is asleep at a task decision or over the bound; with no pick and nothing skipped, everything waiting was asleep |
| ExploreAll.BoundIsRespected | src/explore.rs:574-581 | No executed schedule preempts more often than `max_preemptions` |
| ExploreNaive.NaiveExecutesTheBound | src/explore.rs:555-622 | A naive search that neither ran out of budget or time nor hit the step cap has executed exactly the complete schedules within the preemption bound |
| ExploreNaive.ClosedMeansExhaustive | src/explore.rs:217-220 | After a naive search with a closed frontier, the executed schedules are exactly the complete ones, and `stable` says that all of them were observed the same |
| ExploreNaive.StableMeansOneDigest | src/explore.rs:205-228 | In any mode, `stable` holds if and only if all executed schedules agree in digest |
| ExploreNaive.NotesAtEnd | src/explore.rs:333-404 | The frontier is open if and only if some note says why, and a hit step cap is always noted |
| ExploreOutcomes.OutcomesCarryWitnesses | src/explore.rs:394-534 | In every mode each outcome carries the choices of the first executed schedule with its observation, what the machine shows at their end, the preemptions along them and the number of executed schedules observed alike; outcomes stand in the order of those schedules, one for each observation; and schedules, deadlocks, races and depth are totals over the executed schedules |
| ExploreRaces.PreparedDemands | src/explore.rs:447-470 | After a run, the node of each racing slice has the other task in its backtrack set, or all its candidates when that task was none |
| ExploreRaces.PassedIsDone | src/explore.rs:560-618 | Without a bound, a level is left only when its backtrack set is done |
| ExploreRaces.RaceClosure | src/explore.rs:290-303 | With pruning off, no bound and a closed frontier: for every executed schedule and every race in its log, the node of the earlier slice was retired with the other task done, or all its candidates done where that task was none; each prefix was retired once |
| ExploreTried.DoneMeansTried | src/explore.rs:544-610 | In every mode, whatever a retired node is done with was executed below it, or is a task that was asleep there |
| ExploreTried.RacesAreTried | src/explore.rs:436-460 | With pruning off, no bound and a closed frontier: for every executed schedule and every two operations of different tasks on one object, one of them a write and the earlier unseen by the later one's clock, the later task was executed at the earlier one's decision or was asleep there; where it was not offered, that holds of every alternative |
| ExploreTried.ArmsAreTried | src/explore.rs:544-610 | With pruning off, no bound and a closed frontier, every alternative of every arm decision of an executed schedule was executed |
| ExploreSleep.SleepersAreJustified | src/explore.rs:430-445 | At every moment of every DPOR run, each sleeper was explored at the node itself or an ancestor, in an executed schedule where its slice had the footprint it carries; and each slice of the path since was seen not to conflict with that footprint in some executed schedule along the same choices |
| ExploreSleep.NewSleeper | src/explore.rs:594-600 | The choice a node moves on from is put to sleep with the footprint its slice was just observed to have |
| ExploreFootprints.DeterminedMeansArmsAgree | src/explore.rs:416-418 | Schedules that agree up to a decision have the same footprint there, if and only if at every arm met inside a slice all alternatives are followed by the same touches up to the next task decision |
| ExploreFootprints.FootprintIsDetermined | src/explore.rs:416-428 | Where footprints are fixed so, each complete schedule logs for a slice what taking first alternatives at its arms would show |
| ExploreFootprints.ArmIsLogged | src/eval/sched.rs:700-727 | What follows an arm up to the next task decision is filed under the slice the arm was taken in, after what that slice touched before |
| ExploreCommute.SleepersAreUndisturbed | src/explore.rs:430-445 | Where footprints are fixed by the choices, a sleeper traces to a level where it was explored with its footprint, and no slice of the path since then conflicts with it |
| ExploreCommute.StaysOffered | src/explore.rs:434-445 | A task that no slice conflicts with and that is not run stays offered, with the same footprint |
| ExploreCommute.HoistedRuns | src/explore.rs:563-573 | A legal run none of whose slices conflicts with a task offered where it began, and a turn of that task after it, can be made with the task's first turn at the front: a legal run to the same state |
| ExploreCommute.SkippedIsRedundant | src/explore.rs:563-573 | Where turns that do not conflict commute, any turn of a task skipped as asleep leads to a state that a legal schedule reaches by taking the alternative explored before and then just the turns of the path since |
| ExploreCommute.SleepersLeadNowhereNew | src/explore.rs:563-600 | Both together, over every reachable search state |
| ExploreArms.SelectIsUndetermined | src/explore.rs:416-418 | The two arms of that machine are followed by different touches, so its footprints are not fixed |
| ExploreArms.StaleSleeper | src/explore.rs:416-418 | A concrete run in which a sleeper conflicts with a slice on its path: the footprint of a slice is not fixed by its prefix |
| ExploreArms.ArmsBreakSleep | src/explore.rs:563-600 | On that machine a DPOR search with a closed frontier reports a stable outcome and misses a schedule that ends differently |
| ExplorerClass.Explorer.constructor | src/explore.rs:317-332 | Starts with an empty path and nothing counted |
| ExplorerClass.Explorer.Explore | src/explore.rs:317-625 | Ends in the state of the specified search, and so has all the properties proved of it |
| ExplorerClass.Explorer.TakeTurn | src/explore.rs:333-622 | One turn: stop, or replay, judge and look for the next alternative, with the whole state as specified |
| ExplorerClass.Explorer.Stop | src/explore.rs:334-351 | Ends the search with an open frontier and one note, changing nothing else |
| ExplorerClass.Explorer.Rebuild | src/explore.rs:407-414 | Appends the nodes of the new decisions up to the step cap, one by one |
| ExplorerClass.Explorer.TakeFootprints | src/explore.rs:416-428 | Recomputes every footprint from the log in one pass: each node gets the operations of its own slice, in order |
| ExplorerClass.Explorer.InheritSleep | src/explore.rs:430-445 | Passes sleep down node by node, from the last forced one on |
| ExplorerClass.Explorer.GrowBacktracks | src/explore.rs:447-470 | Grows backtrack sets for all pairs of the log, the double loop |
| ExplorerClass.Explorer.MarkConverged | src/explore.rs:472-485 | Marks the pruned nodes and counts them |
| ExplorerClass.Explorer.Prepare | src/explore.rs:407-485 | All the passes of a run in the order of the code |
| ExplorerClass.Explorer.Record | src/explore.rs:517-534 | Counts an outcome under its digest, adding it when new; `seen` locates it |
| ExplorerClass.Explorer.Judge | src/explore.rs:487-553 | Files one run: its outcome, its depth, its visited states |
| ExplorerClass.Explorer.NoteDepth | src/explore.rs:391-405 | Notes a run deeper than the step cap, once |
| ExplorerClass.Explorer.WeighNode | src/explore.rs:560-584 | Walks one node's waiting alternatives in ascending order up to the first to take |
| ExplorerClass.Explorer.Backtrack | src/explore.rs:555-617 | Scans from the deepest level up and leaves the state of the specified scan |
| ExplorerClass.Explorer.Visit | src/explore.rs:555-617 | One level: takes an alternative or passes the level by |
| ExplorerClass.Explorer.Take | src/explore.rs:594-606 | Cuts the path below the level, puts the old choice to sleep and moves to the new one |
| LexModel.StepAdvances | src/lex.rs:577-634 | Every step consumes input or, consuming none, lowers the stack of contexts, and never leaves the text: lexing ends |
| LexModel.UnwindAdvances | src/lex.rs:699-714 | Unwinding a plain string pops at least one context and consumes nothing |
| LexModel.RunEnd | src/lex.rs:1077-1107 | A run of characters ends at the first that does not belong to it |
| LexNesting.StepNests | src/lex.rs:577-634 | Every step from code, string, interpolation or format spec keeps the tokens so far well nested and in accord with the stack |
| LexNesting.EveryTokenIsInPlace | src/lex.rs:497-521 | For every input, each token stands where the literals around it allow it (text in strings, code outside, a format spec in its interpolation), and the deepest string nesting reported is that of the tokens |
| LexNesting.LiteralsBalance | src/lex.rs:2084-2113 | For every input, string starts and ends and interpolation starts and ends form one well-nested word with nothing left open |
| LexNesting.DedentKeepsShapes | src/lex.rs:1755-1827 | The dedent changes no token but for the text in it, and no span |
| LexSpans.SpansAreInOrder | src/lex.rs:497-521 | Lexing consumes the whole input, and token spans are in bounds, in source order and do not overlap |
| LexTerminators.TerminatorLaw | src/lex.rs:725-811 | Every inserted terminator follows a token that ends a statement and is not an attribute's bracket; it is never followed by `else` or by another; and it stands in code outside parentheses, brackets and interpolations, except for the last token of a text that runs out inside such a delimiter right after a statement or inside a string |
| LexTerminators.LawfulUnlessOpen | src/lex.rs:799-811 | The law holds without exception if and only if, when the text runs out, the innermost delimiter outside every string is no parenthesis or bracket, or no string is open and the last token ends no statement |
| LexTerminators.DrainLeavesLoosePart | src/lex.rs:2084-2113 | Closing what the input left open leaves the stream with just the delimiters that were open outside every literal |
| LexTerminators.ClosedInputIsLawful | src/lex.rs:799-811 | When every delimiter is closed the law holds without exception |
| LexTerminators.EndsOpenIsOpen | src/lex.rs:799-811 | The exception occurs only where something was open at the end of the input |
| LexTerminators.UnclosedParenIsTerminated | src/lex.rs:2084-2113 | The exception is real: the two characters `(1` |
| LexTerminators.ElseIsForeseen | src/lex.rs:768-797 | The lookahead on raw text sees `else` exactly where the scanner of words reads that keyword |
| LexLiterals.PlainLiteralRoundTrips | src/lex.rs:1579-1732 | For every text, lexing it escaped between quotes gives its start, the text when nonempty, its end and one terminator, with no diagnostic |
| LexLiterals.DedentIsLineByLine | src/lex.rs:2116-2162 | The dedent of a chunk is the dedent of its lines: each that begins at a line start loses its leading blanks up to the column and nothing else, and the line-start flag for the next chunk is right |
| LexDedent.HolesEndLineStarts | src/lex.rs:2116-2162 | Dedenting two chunks around something that is no blank is dedenting the whole |
| LexDedent.ChunksDedentAsOne | src/lex.rs:1755-1827 | Dedenting a literal's pieces one by one around its interpolations gives what dedenting its whole text gives |
| LexDedent.FaultMeansUnmargined | src/lex.rs:1838-1890 | The margin check reports nothing if and only if every line that is not blank begins with the margin |
| LexDedent.MultilineLosesItsMargin | src/lex.rs:1755-1890 | An input that is nothing but a multiline literal of plain lines gives its text with each line stripped, and an error exactly when some line that is not blank lacks the margin |
| LexDedent.MarginIsWhatGoes | src/lex.rs:2116-2162 | When nothing is reported, a line that is not blank loses exactly the margin |
| LexWeave.EveryMomentRemembers | src/lex.rs:1503-1575 | At every moment of lexing any input, each open multiline string remembers exactly the text tokens and interpolations that the stream shows at its own level since it was opened, in order, and other strings remember nothing |
| LexFinish.LexShows | src/lex.rs:577-634 | The finished stream shows the tokens of every moment where they were, and unchanged those inside a literal closed by then |
| LexFinish.ClosedLiteralIsDedented | src/lex.rs:1715-1827 | Whenever a multiline literal closes under blanks, wherever it is and whatever it holds, the text the finished stream shows for it is its whole text with each line that begins at a line start rid of its blanks up to the closing column |
| LexFinish.NewlineIsTerminated | src/lex.rs:725-748 | A newline read in code, after a token that ends a statement and closes no attribute, where the innermost delimiter permits it and no `else` follows, has its terminator in the finished stream |
| LexTokens.TokensAreSpelt | src/lex.rs:497-521 | For every input each token is spelt by the text under it: words, numbers, character literals, string openers and closers, delimiters and operators; words, numbers and operators are the longest spelt there, and a number is a float if and only if it has a point or an exponent; E0106 is reported for exactly the prefixed numbers with nothing behind the prefix or a digit outside their base; and where code is read all that stands before, between and behind tokens are blanks, line ends and comments |
| LexTokens.PrologueIsSkipped | src/lex.rs:577-634 | Before the first token a byte order mark is skipped, or else a first line that begins with `#!` and not with `#![`, and nothing else |
| LexTokens.LongestIsFound | src/lex.rs:869-1075 | Of operators listed by falling length the search finds the longest that is spelt, if one is |
| LexNumbers.NumberIsLongest | src/lex.rs:1114-1199 | The text read as a number is digits, a fraction and an exponent, each of which begins with a digit, or a prefixed literal; and no longer text from its start is one |
| LexNumbers.FloatIsTold | src/lex.rs:1114-1199 | A number goes on after its first digits if and only if it has a point or an exponent |
| LexEscapes.EscapesAreSpelt | src/lex.rs:1902-2025 | An escape is read as a character, up to a position, if and only if the text up to there spells that character: by one letter, by `x` and two hexadecimal digits, or by `u` and one to six of them in braces |
| LexEscapes.CharsAreSpelt | src/lex.rs:1211-1330 | A character literal is read if and only if one is spelt: one character, or one escape, between apostrophes |
| LexReads.EveryMomentReads | src/lex.rs:1579-1732 | At every moment of lexing any input the text held back for the innermost string is what the source since the last token spells: each character itself, a doubled brace or an escape, nothing for a lone closing brace or a bad escape, and in a raw or generalized string each character itself |
| LexMargins.EveryMomentTells | src/lex.rs:1579-1732 | At every moment of lexing any input, the text read so far of each open multiline string has the lines that its own newlines and escapes began, in order, and each line that begins in the source opens with the blanks of its source line and is blank if that is |
| LexMargins.OriginsAreRead | src/lex.rs:1579-1732 | Lines of the text begin in the source at the start of the string and after each newline read in the string itself, outside its interpolations, and nowhere else |
| LexMargins.SpeltMeansEscape | src/lex.rs:1579-1732 | A line of the text begins elsewhere than in the source if and only if an escape of the string itself spelt a newline |
| LexMargins.LinesAreNoted | src/lex.rs:1579-1732 | At every moment of lexing any input, the line starts noted of an open multiline string, after its first, are exactly the positions after the newlines read in the string itself, outside its interpolations |
| LexMargins.FaultMeansMisfit | src/lex.rs:1838-1890 | For every text and ascending line starts, the margin check is silent if and only if each source line above the closing one is blank or begins with the margin |
| LexMargins.MarginIsReported | src/lex.rs:1755-1890 | Closing a multiline string under blanks, wherever it is and whatever it holds, reports nothing if and only if each of its own source lines above the closing one is blank or begins with the closing indentation |
| LexMargins.ClosedLiteralLosesItsMargin | src/lex.rs:1755-1890 | Whenever a multiline string closes under blanks and nothing is reported of it, wherever it is and whatever it holds, each line of its text that begins at a line start of the source is blank or loses exactly the closing indentation in the finished stream |
| LexMargins.PlainlySpeltLosesItsMargin | src/lex.rs:1755-1890 | Without a backslash in the string, that is every line that begins at a line start |
| LexMargins.SpeltNewlineIsUnjudged | src/lex.rs:1838-1890 | With an escape it need not be: a string where `\n` begins a line that is not blank, lacks the closing indentation and is not reported |
| LexerClass.FindEnd | src/lex.rs:1077-1107 | Finds the first character that does not satisfy the predicate |
| LexerClass.LookForElse | src/lex.rs:768-797 | Reads ahead over blanks, newlines and comments and says whether `else` follows |
| LexerClass.CountBlanks | src/lex.rs:2123-2162 | Counts the blanks to drop, at most the column |
| LexerClass.DedentText | src/lex.rs:2123-2162 | The dedent's loop computes the specified dedent and flag |
| LexerClass.ReadUnicodeEscape | src/lex.rs:1969-2025 | Reads a braced escape: its scalar, or the error and where it stands |
| LexerClass.ReadEscape | src/lex.rs:1902-1967 | Reads any escape of a string or character literal |
| LexerClass.Lexer.constructor | src/lex.rs:497-521 | Starts at the front with nothing read |
| LexerClass.Lexer.Run | src/lex.rs:577-634 | Lexes the whole input and leaves what the specification says, and so has all the properties proved of it |
| LexerClass.Lexer.AddTerminator | src/lex.rs:725-748 | Inserts a terminator exactly when the last token, the delimiter and what follows allow one |
| LexerClass.Lexer.InsertTerminatorAtEof | src/lex.rs:799-811 | The same at the end of the input, where only the last token is asked |
| LexerClass.Lexer.UnwindPlainString | src/lex.rs:699-714 | Closes everything above and including the innermost plain string |
| LexerClass.Lexer.ScanNormal | src/lex.rs:816-866 | Skips trivia, inserting terminators at newlines, and scans one token |
| LexerClass.Lexer.ScanOne | src/lex.rs:816-866 | One piece of trivia or one token |
| LexerClass.Lexer.ScanToken | src/lex.rs:869-1033 | Scans one token |
| LexerClass.Lexer.ScanSingle | src/lex.rs:869-1033 | Scans a delimiter or an operator, or takes in what begins no token |
| LexerClass.Lexer.LeaveDelimiter | src/lex.rs:1035-1048 | Pops the expected delimiter if it is on top |
| LexerClass.Lexer.LeaveBracket | src/lex.rs:1053-1060 | Pops a bracket and remembers whether it closed an attribute |
| LexerClass.Lexer.LeaveBrace | src/lex.rs:1064-1075 | Pops a brace, or ends an interpolation |
| LexerClass.Lexer.ScanWord | src/lex.rs:1077-1107 | Scans a word, a keyword or a raw string |
| LexerClass.Lexer.ScanNumber | src/lex.rs:1114-1189 | Scans a number in any base, with its faults |
| LexerClass.Lexer.ScanCharLiteral | src/lex.rs:1211-1302 | Scans a character literal, or reports what is wrong with it |
| LexerClass.Lexer.OpenQuote | src/lex.rs:1410-1480 | Opens a plain string |
| LexerClass.Lexer.OpenMultiline | src/lex.rs:1410-1480 | Opens a multiline string, with what is wrong on its first line |
| LexerClass.Lexer.OpenRaw | src/lex.rs:1484-1501 | Opens a raw string, or backs out of a word that was none |
| LexerClass.Lexer.Open | src/lex.rs:1503-1543 | Pushes a string's frame and its start token |
| LexerClass.Lexer.FlushText | src/lex.rs:1552-1566 | Turns the text held back into one token |
| LexerClass.Lexer.ScanStringBody | src/lex.rs:1579-1713 | Scans a string's body up to the end of the frame's turn |
| LexerClass.Lexer.ScanBodyChar | src/lex.rs:1579-1713 | One turn of the body's loop |
| LexerClass.Lexer.OpenInterpolation | src/lex.rs:1640-1680 | Flushes, notes the hole and opens an interpolation |
| LexerClass.Lexer.ScanEscape | src/lex.rs:1902-1942 | Decodes one escape into the text held back |
| LexerClass.Lexer.AbandonString | src/lex.rs:1895-1900 | Ends a plain string at a newline |
| LexerClass.Lexer.CloseBody | src/lex.rs:1715-1732 | Dedents if multiline, flushes and ends the string |
| LexerClass.Lexer.ApplyDedent | src/lex.rs:1755-1827 | Rewrites the literal's own text tokens in place and the text held back, or reports the fault |
| LexerClass.Lexer.TrimClosingLine | src/lex.rs:1755-1827 | Drops the closing line's indentation from the text held back |
| LexerClass.Lexer.JudgeMargins | src/lex.rs:1838-1890 | Finds the first line whose margin is short or differs |
| LexerClass.Lexer.DedentTokens | src/lex.rs:1755-1827 | Rewrites text tokens one by one, threading the line-start flag |
| LexerClass.Lexer.ScanFormatSpec | src/lex.rs:2040-2078 | Scans a format spec up to its end or to a nested interpolation |
| LexerClass.Lexer.CloseUnterminated | src/lex.rs:2084-2113 | Closes whatever the input left open, innermost first |
| JsonModel.Slot | src/json.rs:283-326 | The slot of a key is a member with that key; with none there is no such member |
| JsonGrammar.ParserMeetsGrammar | src/json.rs:227-240 | The parser succeeds with a tree if and only if the text is, between blanks, a value of RFC 8259 that means that tree, no deeper than 129 containers and with its surrogates paired; any other text is a parse error |
| JsonGrammar.DocumentParses | src/json.rs:227-240 | Every spelling of a document parses to what it means |
| JsonGrammar.ParsedIsSpelt | src/json.rs:227-240 | Every text that parses is the spelling of a document |
| JsonGrammar.ValueParses | src/json.rs:261-350 | A value parses at any depth it fits, and the parser stops right behind it |
| JsonGrammar.ValueIsSpelt | src/json.rs:261-350 | What the parser took is the spelling of a value with that meaning, and fits the depth |
| JsonGrammar.NumberParses | src/json.rs:352-386 | A number of section 6 is read whole, its spelling kept |
| JsonGrammar.NumberIsSpelt | src/json.rs:352-386 | What was read as a number is one of section 6 |
| JsonGrammar.CharsParse | src/json.rs:388-453 | The characters of section 7, escapes and surrogate pairs included, decode to what they mean |
| JsonGrammar.CharsAreSpelt | src/json.rs:388-453 | What was read as a string is spelt by the characters of section 7 |
| JsonQuery.RepeatedKeysCollapse | src/json.rs:301-322 | An object holds one entry per distinct key, in the order of first appearance, each with its last value |
| JsonQuery.EncodedStringDecodes | src/json.rs:466-482 | Every string reads back from its encoding, whatever follows it |
| JsonQuery.CompactReparses | src/json.rs:186-217 | The compact text of any tree the parser can return reads back as that tree |
| JsonQuery.TrimmedReparses | src/json.rs:102-121 | Trimming a text that is a container changes nothing it says |
| JsonQuery.RenderingReparses | src/json.rs:102-121 | What `get` returns, a string aside, is a text of just the value found |
| JsonQuery.SplitJoins | src/json.rs:157-182 | The segments of a joined path are those of its parts |
| JsonQuery.ResolveJoins | src/json.rs:157-182 | Resolving a joined path is resolving its parts in turn |
| JsonQuery.QueriesCompose | src/json.rs:102-121 | When a path addresses a container, querying what it returned, by any path, is querying the joined path, errors included |
| JsonQuery.LenBoundsIndices | src/json.rs:146-182 | An array's length is the bound of the indices that resolve, leading zeros or not |
| JsonQuery.PlusSignIsRead | src/json.rs:455-461 | `\u+041` is read as a letter, which the standard does not allow |
| JsonPaths.SegmentsAreUnique | src/json.rs:157-182 | There is one way to cut a path at its dots into segments without dots, and it is the way the path is cut |
| JsonPaths.LookupAddresses | src/json.rs:157-182 | A query finds exactly what its path addresses, member by key and item by the number its digits count to; it is a parse error if and only if the text does not parse, and missing if and only if the text parses and the path addresses nothing |
| JsonPaths.KeySelectsItsMember | src/json.rs:157-182 | In an object a key without dots finds a value if and only if that is the value of the member that bears it, and is missing if and only if no member does |
| JsonPaths.NothingElseSelects | src/json.rs:157-182 | A segment into a scalar is missing, and so is one into an array that is not digits |
| JsonPaths.KindIsTold | src/json.rs:128-138 | The kind is the name of what the path addresses, with the errors of the path |
| JsonPaths.LenIsTold | src/json.rs:146-153 | The length is the number of members or items of what the path addresses; a scalar there, and nothing else, is a kind error |
| JsonPaths.ScalarsAreAnswered | src/json.rs:102-122 | A scalar is answered by its characters, its spelling or its word |
| JsonParser.Parser.constructor | src/json.rs:227-240 | Starts at the front of the text |
| JsonParser.Parser.Skip | src/json.rs:243-250 | Moves over blanks and no further |
| JsonParser.Parser.Eat | src/json.rs:252-259 | Consumes a character if it is the next, and nothing otherwise |
| JsonParser.Parser.TakeLiteral | src/json.rs:274-281 | Consumes a word if it is next |
| JsonParser.Parser.TakeNumber | src/json.rs:352-386 | Moves over the longest number and keeps its spelling, or fails as specified |
| JsonParser.Parser.TakeHex4 | src/json.rs:455-461 | Reads four hexadecimal places, a sign allowed in the first |
| JsonParser.Parser.TakeUnicode | src/json.rs:416-453 | Reads a code or a surrogate pair; an unpaired half fails |
| JsonParser.Parser.TakeEscape | src/json.rs:416-453 | Reads what follows a backslash |
| JsonParser.Parser.TakeString | src/json.rs:388-414 | Reads a string, decoding as it goes |
| JsonParser.Parser.TakeValue | src/json.rs:261-272 | Reads any value, refusing containers too deep |
| JsonParser.Parser.TakeObject | src/json.rs:283-326 | Reads an object with a table of slots |
| JsonParser.Parser.Place | src/json.rs:301-322 | Overwrites a key's value in place or appends it, and keeps the table of slots right |
| JsonParser.Parser.TakeArray | src/json.rs:328-350 | Reads an array |
| JsonParser.ParseAll | src/json.rs:227-240 | The cursor parser returns exactly what the specification does |
| JsonParser.Follow | src/json.rs:157-182 | The walk along a path returns what the specification does, errors included |
| JsonParser.Encode | src/json.rs:466-482 | Appends the encoding to the buffer |
| JsonParser.Write | src/json.rs:186-217 | Appends the compact text to the buffer |
| JsonParser.GetAt | src/json.rs:102-121 | The query over a text, from parsing to rendering |
| JsonParser.LenAt | src/json.rs:146-153 | The length query over a text |
| NumInfer.OrderDoesNotMatter | src/numinfer.rs:206-243 | Operations made in another order, or more than once, leave the same evidence and annotate the same counters |
| NumInfer.LinkJoins | src/numinfer.rs:279-302 | One more link connects two counters if and only if they were connected or the link joins their classes |
| CounterForest.HalvingKeepsRoots | src/numinfer.rs:248-255 | Pointing a counter at its grandparent keeps every root |
| CounterForest.RepointingIsSound | src/numinfer.rs:248-255 | Path shortening keeps the whole forest true to the evidence |
| CounterForest.HangingMovesRoots | src/numinfer.rs:280-302 | Hanging one root under another moves exactly its class there, and the forest stays free of cycles |
| CounterForest.HangIsSound | src/numinfer.rs:280-302 | Linking two classes keeps the forest true: the merged root holds a type if either met one, a conflict exactly if two spellings met, the left-alone bit if either had it |
| CounterForest.LinkWithinIsSound | src/numinfer.rs:280-302 | Linking within a class changes nothing that is known |
| CounterForest.SettleIsSound | src/numinfer.rs:305-314 | Settling keeps the forest true: conflict exactly when two distinct spellings met in the class |
| CounterForest.LeaveIsSound | src/numinfer.rs:318-325 | Leaving alone keeps the forest true |
| CounterForest.CreateIsSound | src/numinfer.rs:189-195 | A new counter is a class of its own |
| CounterForest.RootDecides | src/numinfer.rs:206-243 | The root's fields annotate a counter if and only if the evidence does: its class met exactly one spelling, which wraps, and none of it was left alone |
| CounterMeets.LinkJoinsAll | src/numinfer.rs:280-303 | Linking counters makes their classes one, which has met and is left alone for whatever they had and were, and changes no other class |
| CounterMeets.SettleSettles | src/numinfer.rs:305-316 | Settling counters makes their classes meet the type's spelling and changes nothing else |
| CounterMeets.LeaveLeaves | src/numinfer.rs:318-326 | Leaving counters alone does so to their classes and changes nothing else |
| CounterInference.MeetingComes | src/numinfer.rs:329-348 | What comes of two operands, in both orders: open ones are of one class and open still; an open one meets the declared type beside it, which is the type; one beside anything else is left alone; every other pair changes nothing |
| CounterInference.DecideAll | src/numinfer.rs:206-243 | Any list of operations on fresh counters ends with exactly the annotations its evidence calls for |
| CounterInference.Decide.constructor | src/numinfer.rs:206-243 | No counters and no evidence |
| CounterInference.Decide.Create | src/numinfer.rs:189-195 | A new counter, told apart from all before |
| CounterInference.Decide.Root | src/numinfer.rs:248-255 | Returns the root and shortens the path to it; every root and every fact stays |
| CounterInference.Decide.LinkAll | src/numinfer.rs:280-302 | Adds exactly the links to what is known |
| CounterInference.Decide.LinkOne | src/numinfer.rs:280-302 | Merges two classes, or does nothing when they are one |
| CounterInference.Decide.SettleAll | src/numinfer.rs:305-314 | Adds exactly the type to what is known of each |
| CounterInference.Decide.LeaveAll | src/numinfer.rs:318-325 | Adds exactly the left-alone bit to what is known of each |
| CounterInference.Decide.Meet | src/numinfer.rs:329-348 | Combines what two operands tell and performs what that implies |
| CounterInference.Decide.Annotations | src/numinfer.rs:206-243 | Returns for each counter exactly its verdict |
| LayoutLaws.RoundUpIsLeast | src/layout.rs:181-183 | The least multiple of the alignment from the number on |
| LayoutLaws.LayoutIsRegular | src/layout.rs:192-230 | Every layout has a power of two as alignment, which divides its size |
| LayoutLaws.DepthOnlyRefuses | src/layout.rs:192-230 | A layout found at some depth is the same at every smaller one |
| LayoutLaws.StructHasCLayout | src/layout.rs:258-281 | Every laid-out struct is the C layout: fields in order, each at the least admissible offset, none aligned when packed, the strictest alignment, the least size that holds them |
| LayoutLaws.FieldsAreDisjoint | src/layout.rs:258-281 | Fields lie inside the struct, do not overlap, and are aligned unless it is packed |
| LayoutLaws.LeafIsInside | src/layout.rs:299-347 | A path's leaf lies inside the struct it starts from |
| LayoutLaws.LeavesAreDisjoint | src/layout.rs:299-347 | Two leaves whose paths first differ at the same struct occupy disjoint bytes |
| LayoutLaws.LeafIsAligned | src/layout.rs:299-347 | A leaf is naturally aligned when no struct on its path is packed, and its size divides the outer alignment |
| LayoutRules.ScalarsAreNamedByBits | src/layout.rs:152-163 | Sized integers and floats take the bytes their names say in bits, and the other scalars what they are given |
| LayoutRules.IntegersAreSigned | src/layout.rs:299-347 | Integers are the scalars that are no byte, bool, char or float, and those that begin with `i` are signed |
| LayoutRules.StructsMeetTheRules | src/layout.rs:258-287 | A struct has a layout if and only if it meets the rules, packed or not, and none if and only if a field has none |
| LayoutRules.PackedFieldsTouch | src/layout.rs:258-287 | In a packed struct each field begins where the sizes before it add up to, the alignment is the declared one or one, and the size is the least multiple of it |
| LayoutRules.NamesHaveTheirLayouts | src/layout.rs:192-231 | Every name has exactly the layout that the scalars, the built-in argument list and the rules for `repr(c)` structs without parameters give it, and is unknown if and only if it is no scalar, struct or enumeration |
| LayoutRules.FieldsHaveTheirLayouts | src/layout.rs:234-256 | A field is a pointer of eight bytes or has the layout of the name of its type, and is else refused as native |
| LayoutRules.PathsAreFollowed | src/layout.rs:299-347 | A path is answered if and only if it leads, field by field, to an integer in a struct with a layout; and the answer is the sum of the offsets on the way, the integer's size and sign and the struct's alignment |
| LayoutLaws.FieldPathIsSound | src/layout.rs:299-347 | What `field_path` reports: inside, aligned as promised, with the outer struct's alignment |
| Layout.IndexOf | src/layout.rs:299-347 | The first field of a name, or none when there is none |
| LayoutLoops.LayStruct | src/layout.rs:258-281 | The loop over the fields computes the specified layout or its refusal |
| LayoutLoops.FollowPath | src/layout.rs:299-347 | The loop along a path reports the specified leaf or fault |
| FmtLaws.RenderingFillsWidth | src/fmtspec.rs:558-595 | A rendering is exactly as many bytes as the width asks, or as its core when that is longer |
| FmtLaws.CoreStandsWhole | src/fmtspec.rs:558-595 | Without the zero flag the core stands whole between fill on the side or sides the alignment says, the odd one to the right |
| FmtLaws.ZeroPadded | src/fmtspec.rs:558-595 | With the zero flag a number's zeros stand between its sign and the rest |
| FmtLaws.IntReadsBack | src/fmtspec.rs:424-442 | Reading a rendered integer in its base gives the integer, and its sign is shown as asked |
| FmtLaws.ZeroPaddedIntReadsBack | src/fmtspec.rs:558-595 | So does reading a zero-padded one, through `apply` as a whole |
| FmtLaws.LayoutKeepsValue | src/fmtspec.rs:506-553 | Positional or scientific, the layout denotes the digits times their power of ten |
| FmtLaws.ShortestKeepsValue | src/fmtspec.rs:506-553 | The same with sign and zero |
| FmtLaws.ScientificReads | src/fmtspec.rs:448-498 | Scientific notation reads as its mantissa times its power of ten |
| FmtLaws.ZeroPaddedFloatReadsBack | src/fmtspec.rs:558-595 | Zero padding changes nothing a finite float reads as |
| FmtLaws.ZeroPaddedShortestKeepsValue | src/fmtspec.rs:506-595 | A zero-padded float in the default notation denotes its sign and digits times their power of ten, through `apply` as a whole |
| FmtLaws.TruncationIsLongest | src/fmtspec.rs:400-420 | The byte cap keeps whole characters, and as many as fit |
| FmtLaws.SpecsAreTheirSpellings | src/fmtspec.rs:242-371 | A spec is the meaning of some text if and only if it is canonical, and then its own spelling parses to it |
| FmtLaws.ParsedIsCanonical | src/fmtspec.rs:346-371 | What parses and is validated is canonical: one-byte fill only with an alignment, bounded width and precision, no zero flag against an alignment |
| FmtLaws.ShownParses | src/fmtspec.rs:242-329 | Every canonical spec parses back from its spelling |
| FmtRules.BytesAreFewest | src/fmtspec.rs:331-333 | A character counts for the fewest bytes of UTF-8 that carry its bits |
| FmtRules.MisfitsAreRefused | src/fmtspec.rs:346-373 | A spec is refused if and only if it asks a value for what its class does not have, and for the first such reason |
| FmtRules.IntegersAreNumerals | src/fmtspec.rs:424-446 | An integer is its sign, or a plus sign if asked for, and its magnitude's numeral without leading zeros in the base of the type letter, in upper case for `X` alone |
| FmtRules.FloatsAreWritten | src/fmtspec.rs:448-502 | A finite float is written as its type letter says, with six places where no precision is given, and `e` or `E` stands before a signed exponent of two digits at least |
| FmtRules.OddFloatsAreWords | src/fmtspec.rs:448-502 | What is no number and infinities are words, and only infinity takes a sign |
| FmtRules.NumbersStandRight | src/fmtspec.rs:558-592 | Without an alignment a number stands to the right of its fill and anything else to the left of it |
| FmtRules.WordsTakeNoZeros | src/fmtspec.rs:558-592 | What is no finite number is filled with blanks where zeros are asked for |
| FmtLoops.ParseSpec | src/fmtspec.rs:242-329 | The index-moving parser returns what the specification does, error and offset included |
| FmtLoops.TruncateBytes | src/fmtspec.rs:400-420 | The byte-cap loop keeps the specified characters |
| FuzzReduce.Reduce | src/fuzz.rs:665-730 | For any predicate true of the program it comes to an end with a program that satisfies it, no larger, from which no single helper drop, offered edit or simplification that changes it can be made |
| FuzzReduce.DropHelpers | src/fuzz.rs:672-682 | Drops helpers last first; when none went, none can |
| FuzzReduce.EditOnce | src/fuzz.rs:684-701 | Makes one edit that leaves fewer statements; when none was made, none can be |
| FuzzReduce.SimplifyOnce | src/fuzz.rs:703-724 | Makes one simplification that leaves fewer open nodes; when none was made, none can be |
| FuzzReduce.EditShrinks | src/fuzz.rs:767-825 | An edit that changes anything leaves fewer statements |
| FuzzReduce.StmtsSimplify | src/fuzz.rs:861-910 | A simplification that changes anything leaves as many statements and fewer nodes that are not literals |
| FuzzReduce.TopLevelIsReached | src/fuzz.rs:734-773 | Each statement of `main` can be dropped alone, and each container there unwrapped |
| FuzzReach.ChangesWhatIsAddressed | src/fuzz.rs:775-825 | An edit changes something if and only if its path addresses a statement it can edit, some choice of arms on the way |
| FuzzReach.EachEditHitsUnlessShadowed | src/fuzz.rs:734-825 | Every statement at any depth has its removal offered, and a container its unwrapping; and the offered edit edits that statement and nothing else if and only if, wherever its place enters a second arm, the rest of its path addresses nothing in the first |
| FuzzReach.MinimalWhereUnshadowed | src/fuzz.rs:665-730 | From a program no offered step improves, no single statement that is not shadowed can be dropped or unwrapped |
| FuzzReach.EachNodeIsReached | src/fuzz.rs:827-910 | The simplifications that change a program are exactly the replacements of one node that is not a literal, of any value or condition at any depth |
| FuzzReduce.ElseArmIsShadowed | src/fuzz.rs:734-825 | A statement of the second arm that no offered edit drops |
| FuzzReduce.ReducerCanStopEarly | src/fuzz.rs:665-730 | A predicate and a 1-minimal program from which one more statement could be dropped |
| FuzzScope.BlockGrows | src/fuzz.rs:376-498 | A statement well scoped after a block makes a well-scoped block |
| FuzzScope.TargetsAreKnown | src/fuzz.rs:376-498 | What a well-scoped block assigns was in scope or declared in it |
| FuzzDraws.DrawnExpressions | src/fuzz.rs:285-374 | An expression comes out of some stream of draws if and only if it is one of the grammar: its operators, divisors, products, calls and nesting |
| FuzzDraws.DrawnIsStmt | src/fuzz.rs:376-498 | Whatever is drawn, a statement of the grammar comes out, and the scope it leaves |
| FuzzDraws.StmtStands | src/fuzz.rs:376-498 | Every statement of the grammar has draws that stand for it, wherever they stand in whatever stream |
| FuzzDraws.DrawnPrograms | src/fuzz.rs:225-283 | A program comes out of some stream if and only if it is one of the grammar |
| FuzzGenerator.Generate | src/fuzz.rs:225-283 | For every stream of draws and both modes the program is the one the stream stands for, and it is well formed: variables in scope, assignments to variables in scope, calls to earlier helpers with the right arity and mode, no loop body that assigns its counter, divisors that are nonzero literals |
| FuzzGenerator.GenHelper | src/fuzz.rs:225-283 | A helper whose body calls only earlier ones; a mutating one has one parameter |
| FuzzGenerator.GenMain | src/fuzz.rs:225-283 | A well-scoped main body that ends by printing |
| FuzzGenerator.Generator.Draw | src/fuzz.rs:57-73 | A number below the bound, from the next of the stream |
| FuzzGenerator.Generator.Leaf | src/fuzz.rs:368-374 | A literal or a name in scope |
| FuzzGenerator.Generator.GenExpr | src/fuzz.rs:285-346 | An expression well scoped in the names given |
| FuzzGenerator.Generator.GenBin | src/fuzz.rs:285-346 | A binary one; divisors are nonzero literals, and in the defined mode products are of literals |
| FuzzGenerator.Generator.GenCond | src/fuzz.rs:348-366 | A comparison of well-scoped expressions |
| FuzzGenerator.Generator.GenLet | src/fuzz.rs:376-498 | A declaration of a new name |
| FuzzGenerator.Generator.GenStmt | src/fuzz.rs:376-498 | A statement well scoped where it stands, which leaves the scope it says |
| FuzzGenerator.Generator.GenAssign | src/fuzz.rs:376-498 | An assignment to a variable in scope |
| FuzzGenerator.Generator.GenIf | src/fuzz.rs:376-498 | Both arms well scoped, and the scope as before |
| FuzzGenerator.Generator.GenWhile | src/fuzz.rs:376-498 | A loop with a new counter that its body never assigns |
| FuzzGenerator.Generator.GenBlock | src/fuzz.rs:376-498 | A block whose names end with it |
| FuzzGenerator.Generator.GenRegion | src/fuzz.rs:376-498 | A region whose names end with it |
| FuzzGenerator.Generator.GenMove | src/fuzz.rs:376-498 | A move of a name in scope to a new name |
| FuzzGenerator.Generator.GenCallMut | src/fuzz.rs:376-498 | A call of a mutating helper on a variable in scope, or a harmless statement where there is none |
| FuzzEval.Run | src/fuzz.rs:189-283 | Every well-formed program stops, with a value for each name in scope at the end |
| FuzzEval.ExecStmt | src/fuzz.rs:507-632 | A statement stops, gives every name it brings into scope a value and changes only what it assigns or declares |
| FuzzEval.ExecBlock | src/fuzz.rs:507-632 | The same for a block |
| FuzzEval.Loop | src/fuzz.rs:507-632 | A loop stops with its counter at the bound, or where it was when already past it |
| FuzzEval.IndexOf | src/fuzz.rs:507-632 | A call reaches a helper of its name, arity and mode |
| FuzzEval.Bind | src/fuzz.rs:507-632 | Exactly the parameters are bound |

## Left out

Explorer:

- The interpreter under the explorer: it is an arbitrary deterministic machine over a finite tree; `eval::sched`'s vector clocks are parameters of the operation log.
- The wall clock: whether it has expired before a turn is a parameter.
- The check of state preimages in paranoid mode, leak records, oracle failures and the texts of notes; verdict, output and leaks are one digest.
- Soundness of pruning by state hash and completeness of DPOR over all traces: the program's own documentation calls the hash an approximation.  Pruning is modelled as far as distinctness needs.
- How many alternatives slept or were pruned is counted, and the counts are not tied to schedules.
- ExploreCommute.SkippedIsRedundant: assumes that turns that do not conflict commute where both are offered, a promise of the interpreter.
- ExploreCommute.SleepersAreUndisturbed: assumes footprints fixed by the choices; without that it is false, as `ExploreArms` shows.

Lexer:

- Offsets count Unicode scalars, not bytes, here and in the JSON kernels; the rejection of bytes that are not UTF-8 happens before.
- Character classes beyond ASCII are arbitrary predicates.
- All operators are one constructor with their spelling; messages, hints and dumps are left out.
- The check of unfinished input for the interactive prompt, and all tiers after the lexer.

JSON kernels:

- Spans of numbers into the source: the node holds the spelling itself.
- Error offsets: a parse failure is one error, as the kernels report it.

Counter inference:

- The walk over the syntax tree that finds the operations, and the write-back of annotations: the model starts from the list of operations and ends at a verdict per counter.

Layout:

- Overflow of 64-bit sizes: integers are unbounded.
- Reading attributes, the borrow checks and the queries built on the layout.

Format specs:

- Digit generation for floats: shortest, fixed and scientific digits are given; their layout is modelled.
- The 128-bit width of integers: they are unbounded.
- FmtLaws.ZeroPaddedFloatReadsBack: asks that no second sign follows the first in the fixed or scientific digits given; for the default notation `ZeroPaddedShortestKeepsValue` needs no such demand.

Fuzzer and reducer:

- The generator of random numbers: any stream of numbers takes its place.
- Rendered text and its agreement with the tree, and freedom from overflow of what the programs compute.
- FuzzReduce.Reduce: 1-minimal over the edits the reducer offers, not over every statement of every arm; `FuzzReach.EachEditHitsUnlessShadowed` says which statements those miss.
- `simplify_nth` changes a clone in place in the program; here it returns the changed tree.
