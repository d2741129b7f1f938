# Verified models of the shell builtins and of the repository scripts

This project models the logic-heavy parts of the repository and proves what they are for:

- the shell's arithmetic evaluator, which re-parses the text of variables while the same evaluation assigns
  them, with wrapping 64-bit integers (section 6.5 of the Bash Reference Manual);
- brace expansion (section 3.5.1 of the Bash Reference Manual);
- the `read` builtin: reading a line event by event, splitting it by IFS, assigning the fields;
- the `getopts` builtin, whose state lives between calls in shell variables (the `getopts` utility of the
  Shell and Utilities volume of POSIX.1-2017, chapter 4);
- the line-range arithmetic of the read statistics: merging, inserting, subtracting and testing ranges, the two
  replay simulators built on it, and the Pareto sweep;
- the incremental synchronisation of session logs into tables, and the search for the longest repeat in an edit;
- the changelog fixer: parser, item promotion, normaliser, printer, and the matcher over diffs.

Code that changes things step by step is a method with loops, or a class whose methods update its fields; each is
proved against a specification function or predicate, and the theorems are about those. Automatic induction is
switched off for every lemma: each induction is written out.

| files | models |
|---|---|
| `Int64`, `ShellVariables`, `Arithmetic`, `ArithmeticProperties`, `ArithmeticOperators` | arithmetic evaluation |
| `BraceExpansion`, `BraceProduct`, `BraceRanges` | brace expansion |
| `IfsSplit`, `IfsProperties`, `IfsPlaces`, `ReadBuiltin`, `ReadTyping`, `ReadAssign` | the `read` builtin |
| `OptionString`, `DecimalText`, `GetoptsScan`, `Getopts`, `GetoptsRuns`, `GetoptsReports` | the `getopts` builtin |
| `Intervals`, `SelectorReads`, `ReadReplay`, `ReadCosts`, `ReadOptimizer`, `ReadLedger`, `Pareto` | read statistics |
| `LongestRepeat`, `SessionLog`, `SessionTables`, `LogSync`, `SessionRows` | log synchronisation |
| `ChangelogText`, `Changelog`, `ChangelogRoundTrip`, `ChangelogItems`, `ChangelogNormal`, `ChangelogPromote`, `ChangelogTextItems`, `ChangelogFix`, `ChangelogSurvival`, `ChangelogResult`, `ChangelogPatterns` | the changelog fixer |
| `DiffItems`, `DiffMatching` | the diff matcher |
| `Options` | the option type |

## Where the code does less than one might expect

Each of these is proved as it is in the code, with the exact condition under which it does what it is meant to.

- A descending number range ends where it should if and only if the value after its last one does not fall below
  the least 64-bit number (`BraceExpansion.DownSequence`); a range down to that number never ends
  (`BraceExpansion.WrappingNumbers`). Overflow is taken to wrap, as in a release build.
- A descending character range ends where it should if and only if none of its values is a surrogate and the value
  after the last, modulo 2^32, is no character at or above the end (`BraceExpansion.CharDownSequence`). The step is
  cut to 32 bits, so a step of 2^32 repeats the first character for ever, and one of 2^32 - 1 climbs up to the
  surrogates and ends there (`BraceExpansion.HugeCharSteps`).
- The split of `read` is that of section 2.6.5 of the Shell Command Language of POSIX.1-2017 if and only if no IFS
  white space stands next to another IFS character within the trimmed line; otherwise it has more fields
  (`IfsProperties.PosixAgreement`). `a , b` has three separators where the standard sees one
  (`IfsProperties.SeparatorsDoNotMerge`).
- Writing to OPTIND the value it already has starts an argument over if and only if nothing of it was remembered
  (`GetoptsRuns.AssigningOptind`); and an OPTIND reads back if and only if it fits 32 bits, else as 1
  (`GetoptsRuns.IndexReadsBack`).
- An element assigned at a negative index of an indexed array reads back at that index if and only if the array did
  not grow, or the element it then selects has the same text (`ShellVariables.AssignElementReadsBack`).
- A merge of ranges is canonical if and only if every inverted range is absorbed: it begins inside or right after a
  range that begins before it, or it ends right before its own start and a proper range starts there. The inverted
  ranges of the result are exactly those not absorbed (`Intervals.Merge`, with lists of both kinds in
  `Intervals.InvertedSurvives`).
- After a proper first range, the label of a follow-up read says what merging gives, except if and only if it is an
  inverted range labelled inside that the first range does not absorb (`SelectorReads.ClassifyIsMergeShape`). The
  covered lines of a group are counted right if and only if every range that ends more than a line before it begins is
  absorbed (`SelectorReads.Analyze`).

## Model

| member | source | states |
|---|---|---|
| Int64.WrappingPow | crates/brush-core-vendored/src/arithmetic.rs:408-421 | square-and-multiply gives the mathematical power reduced to 64-bit two's complement, for every base and every unsigned exponent |
| Int64.PowIsRepeatedMul | crates/brush-core-vendored/src/arithmetic.rs:408-421 | that power is what repeated wrapping multiplication gives |
| Int64.DivRem | crates/brush-core-vendored/src/arithmetic.rs:297-310 | truncating division and remainder recompose to the dividend, the remainder is smaller than the divisor and has the dividend's sign |
| Int64.DivOverflow | crates/brush-core-vendored/src/arithmetic.rs:297-310 | the wrapping quotient is the truncated one except for the least number divided by -1, which gives the dividend back with remainder zero |
| Int64.BitwiseIdentities | crates/brush-core-vendored/src/arithmetic.rs:322-324 | the bitwise operators expressed through sums and differences |
| Int64.ShiftRoundTrip | crates/brush-core-vendored/src/arithmetic.rs:314-315 | right shift rounds down, and shifting back gives the largest multiple of the power of two not above the number |
| ShellVariables.DecimalInjective | crates/brush-core-vendored/src/arithmetic.rs:362-399 | different numbers are written as different texts |
| ShellVariables.AssignScalarReads | crates/brush-core-vendored/src/env.rs:476-503 | a scalar assignment is read back, adds no other text, and touches no other variable |
| ShellVariables.AssignElementReads | crates/brush-core-vendored/src/variables.rs:375-440 | an assignment of an element, at a negative index too, is read back at the index it wrote, leaves the other elements as they are, and touches no other variable |
| ShellVariables.AssignElementReadsBack | crates/brush-core-vendored/src/variables.rs:375-440 | when the very index assigned reads the text back: always, but for a negative one that made the array grow |
| Arithmetic.Shell.Evaluate | crates/brush-core-vendored/src/arithmetic.rs:127-131 | evaluation from the top level starts at depth zero |
| Arithmetic.Shell.EvalExprImpl | crates/brush-core-vendored/src/arithmetic.rs:133-175 | evaluation in place returns the value or error and leaves the store that the evaluation function gives; it terminates by depth left, then expression size |
| Arithmetic.Shell.DerefLvalue | crates/brush-core-vendored/src/arithmetic.rs:196-231 | reading a variable: its text is parsed and evaluated one level deeper, a plain literal at no cost of depth |
| Arithmetic.Shell.ApplyBinaryOp | crates/brush-core-vendored/src/arithmetic.rs:249-328 | the binary operators, with short circuits and the errors for division by zero and negative exponents |
| Arithmetic.Shell.ApplyUnaryAssignmentOp | crates/brush-core-vendored/src/arithmetic.rs:330-360 | the increments and decrements |
| Arithmetic.Shell.AssignTarget | crates/brush-core-vendored/src/arithmetic.rs:362-399 | assignment to a name or an element, which evaluates the index |
| ArithmeticProperties.NonInterference | crates/brush-core-vendored/src/arithmetic.rs:133-399 | for a set of names that contains the expression's and is closed under the names in the stored texts: stores that agree on it give the same result, still agree on it afterwards with it still closed, and are unchanged outside it |
| ArithmeticProperties.DepthOnlyLimits | crates/brush-core-vendored/src/arithmetic.rs:196-231 | starting deeper gives the same value, error and store as starting shallower, or the recursion-limit error |
| ArithmeticProperties.ChainOfReferences | crates/brush-core-vendored/src/arithmetic.rs:11 | a chain of n references ending in a literal succeeds if and only if n is at most 1024 |
| ArithmeticProperties.CycleFails | crates/brush-core-vendored/src/arithmetic.rs:203-230 | every pure cycle of references fails with the recursion-limit error |
| ArithmeticProperties.WrapOnce | crates/brush-core-vendored/src/arithmetic.rs:249-328 | for expressions of sums, differences, products and negations of literals, wrapping at every step equals wrapping the mathematical value once |
| ArithmeticProperties.DeMorgan | crates/brush-core-vendored/src/arithmetic.rs:260-280 | De Morgan for the short-circuiting operators: same value, error and store |
| ArithmeticProperties.AndIsConditional | crates/brush-core-vendored/src/arithmetic.rs:260-280 | `&&` is the conditional that evaluates its right side only when the left is not zero |
| ArithmeticProperties.CompoundAssignment | crates/brush-core-vendored/src/arithmetic.rs:157-173 | a compound assignment is the assignment of the operator applied to the target and the operand |
| ArithmeticProperties.PrefixIsCompound | crates/brush-core-vendored/src/arithmetic.rs:330-346 | a prefix increment or decrement is the compound assignment by one: value, error and store |
| ArithmeticProperties.PostfixIsPrefixBefore | crates/brush-core-vendored/src/arithmetic.rs:330-360 | a postfix operator stores what the prefix one stores and gives the value before it |
| ArithmeticProperties.DivideAndModulo | crates/brush-core-vendored/src/arithmetic.rs:297-310 | `/` and `%` fail exactly on a zero divisor and otherwise recompose |
| ArithmeticProperties.BitOperators | crates/brush-core-vendored/src/arithmetic.rs:322-324 | and plus or is the sum; exclusive-or is or minus and; and-ing with a non-negative number stays within it |
| ArithmeticProperties.ShiftOperators | crates/brush-core-vendored/src/arithmetic.rs:314-315 | shifting right and back left rounds down to a multiple of the power of two; the distance counts modulo 64 |
| ArithmeticProperties.AssignThenRead | crates/brush-core-vendored/src/arithmetic.rs:362-399 | after a successful assignment of a value that the parser reads back, reading the name below the depth limit gives it and changes nothing |
| ArithmeticProperties.AssignThenReadElement | crates/brush-core-vendored/src/arithmetic.rs:379-396 | the same for an array element, at the index that the assignment evaluated after its right side |
| ArithmeticProperties.CompoundThenReadElement | crates/brush-core-vendored/src/arithmetic.rs:157-173 | after a compound assignment to an element, whose index is evaluated twice, the element of the second evaluation holds the value |
| ArithmeticOperators.Comparisons | crates/brush-core-vendored/src/arithmetic.rs:316-321 | `<` gives 1 exactly if something positive leads from the left value up to the right one, `>` if from the right one up to the left, `==` if neither; the other three comparisons are the complements; both operands are evaluated, left first |
| ArithmeticOperators.ComparisonsTurned | crates/brush-core-vendored/src/arithmetic.rs:316-321 | turning a comparison round gives the same when neither operand changes anything |
| ArithmeticOperators.LogicalValues | crates/brush-core-vendored/src/arithmetic.rs:233-280 | `&&`, `\|\|` and `!` give 0 or 1, and the first two evaluate their right operand exactly if the left one has not decided |
| ArithmeticOperators.OperandFails | crates/brush-core-vendored/src/arithmetic.rs:249-285 | a failing operand fails the operation there and then, with the store it left |
| ArithmeticOperators.RingOnValues | crates/brush-core-vendored/src/arithmetic.rs:296-313 | for any operands, sums, differences and products are those of the integers up to a multiple of 2^64, and the comma gives its right operand |
| ArithmeticOperators.FailingOperators | crates/brush-core-vendored/src/arithmetic.rs:289-310 | for any operands, division and remainder fail exactly on a zero divisor and a power exactly on a negative exponent, each with its own error and after both operands |
| ArithmeticOperators.QuotientAndRemainder | crates/brush-core-vendored/src/arithmetic.rs:297-310 | for any operands the quotient is cut towards zero and the remainder has the sign of the dividend; only the least number by -1 wraps |
| ArithmeticOperators.BitOperatorsOnValues | crates/brush-core-vendored/src/arithmetic.rs:322-324 | for any operands the bit operators work on each of the 64 bits alone |
| ArithmeticOperators.UnaryOnValues | crates/brush-core-vendored/src/arithmetic.rs:233-247 | plus, complement and minus, which wraps for the least number |
| ArithmeticOperators.VariableReads | crates/brush-core-vendored/src/arithmetic.rs:177-231 | a set variable evaluates as its text; one that is unset or not there as the empty text, or as the error about it exactly if unset variables are errors |
| ArithmeticOperators.ElementReads | crates/brush-core-vendored/src/arithmetic.rs:203-231 | an element read evaluates its index first and then the text found: nothing for an absent one, a scalar at index 0, a negative index counted back from the number of elements, and an error exactly if that falls before the first |
| ArithmeticOperators.ScalarWrites | crates/brush-core-vendored/src/env.rs:476-503 | assigning a name fails exactly if it is read-only, and then changes nothing; arrays and declared arrays stay arrays |
| ArithmeticOperators.ElementWrites | crates/brush-core-vendored/src/variables.rs:375-440 | assigning an element fails exactly if the variable is read-only and has no value yet or a negative index falls before the first element |
| ArithmeticOperators.FailedWrites | crates/brush-core-vendored/src/arithmetic.rs:362-399 | an assignment fails exactly if its right side does or the name is read-only in the store that leaves |
| BraceExpansion.DownSequence | crates/brush-core-vendored/src/braceexpansion.rs:41-51 | a descending number range yields exactly the meant values and then ends, if and only if the next value does not fall below the least 64-bit number |
| BraceExpansion.CharDownSequence | crates/brush-core-vendored/src/braceexpansion.rs:63-73 | a descending range of any characters yields exactly the meant ones up to the first surrogate among them, and ends after the last if and only if the next value modulo 2^32 is no character at or above the end |
| BraceExpansion.HugeCharSteps | crates/brush-core-vendored/src/braceexpansion.rs:65-69 | descending ranges that go wrong, for any ends below the surrogates: steps that are multiples of 2^32 repeat the first character for ever; those one less climb one by one to U+D7FF and end there |
| BraceExpansion.WrappingNumbers | crates/brush-core-vendored/src/braceexpansion.rs:44-49 | a number range down to the least 64-bit number never ends, whatever its start and step, and so never ends where it should |
| BraceExpansion.OrdinarySteps | crates/brush-core-vendored/src/braceexpansion.rs:41-73 | steps that keep clear of the limits always end, for character ranges without surrogates |
| BraceExpansion.CharsWithinRange | crates/brush-core-vendored/src/braceexpansion.rs:54-73 | every value of a character range that ends, up or down, is a character between its two ends; up skips the surrogates |
| BraceExpansion.UpSequence | crates/brush-core-vendored/src/braceexpansion.rs:39-40 | an ascending range has \|end - start\| div step + 1 values, start plus multiples of the step |
| BraceExpansion.DownList | crates/brush-core-vendored/src/braceexpansion.rs:41-51 | the list of a descending range: as many values as ascending, each a step below the one before |
| BraceProduct.ExpansionIsMixedRadix | crates/brush-core-vendored/src/braceexpansion.rs:4-81 | through arbitrary nesting, the expansion has the product over pieces of the sums over members many strings, and the k-th is the mixed-radix digit choice of k |
| BraceProduct.LastPieceVariesFastest | crates/brush-core-vendored/src/braceexpansion.rs:12-15 | the last piece takes the lowest digit of a position, the pieces before it the rest |
| BraceRanges.NumbersWritten | crates/brush-core-vendored/src/braceexpansion.rs:31-51 | a number range that ends writes its start and every number a multiple of the step towards its end, as far as the end; the increment counts without its sign, and zero as one |
| BraceRanges.CharsWritten | crates/brush-core-vendored/src/braceexpansion.rs:54-73 | a character range that ends writes one character at each place, upwards counting characters and downwards code points, as far as its end |
| BraceRanges.AscendingEnds | crates/brush-core-vendored/src/braceexpansion.rs:39-40 | an ascending range always ends |
| IfsSplit.SplitLineByIfs | crates/brush-builtins-vendored/src/read.rs:687-756 | the loop with its flags computes the recursive specification: separators are maximal IFS-white-space runs or single other IFS characters, with and without a field limit |
| IfsProperties.SplitContent | crates/brush-builtins-vendored/src/read.rs:687-756 | no field has an IFS character, and the fields in order are the line without its IFS characters |
| IfsProperties.SplitUndoesJoin | crates/brush-builtins-vendored/src/read.rs:687-756 | splitting the join of IFS-free fields by one IFS character gives those fields back, when the last is not empty and, for white space, none is |
| IfsProperties.LimitedSplit | crates/brush-builtins-vendored/src/read.rs:701-755 | with a limit of n there are at most n fields, the first n - 1 as without limit, an n-th a verbatim suffix of the trimmed line; fewer than n means the limit changed nothing |
| IfsPlaces.FieldPlaces | crates/brush-builtins-vendored/src/read.rs:687-756 | where every field of a limited split begins and ends: right after the separator behind the one before, and for the last one permitted also after the blanks that follow it; a separator is all the blanks there or one other character; the last one permitted reaches to the end |
| IfsProperties.TrimCutsEnds | crates/brush-builtins-vendored/src/read.rs:687-700 | trimming cuts IFS white space only, and only at the two ends |
| IfsProperties.PosixAgreement | crates/brush-builtins-vendored/src/read.rs:687-756 | the split equals the standard's if and only if no IFS white space stands next to another IFS character in the trimmed line, and otherwise has more fields |
| IfsProperties.SeparatorsDoNotMerge | crates/brush-builtins-vendored/src/read.rs:687-756 | the failing lines: white space on both sides of another IFS character gives two empty fields where the standard gives none |
| ReadBuiltin.ReadLineWithReader | crates/brush-builtins-vendored/src/read.rs:469-572 | the line reader computes the event-by-event specification and says how many events it took |
| ReadBuiltin.EscapeRoundTrip | crates/brush-builtins-vendored/src/read.rs:469-572 | a text typed with its special characters escaped is read as that text |
| ReadBuiltin.RawLines | crates/brush-builtins-vendored/src/read.rs:469-572 | raw reads of delimiter-terminated lines give the lines one by one, then end of file |
| ReadBuiltin.LimitStopsEarly | crates/brush-builtins-vendored/src/read.rs:469-572 | a length limit leaves the result as it is, or ends it with a prefix that has just reached the limit |
| ReadTyping.TypedLineIsRead | crates/brush-builtins-vendored/src/read.rs:469-572 | any mixture of plain and escaped characters is read as the text it stands for, without dropped control characters and escaped delimiters, and takes one event for a plain character, two for an escaped one, one for the delimiter; raw reads included |
| ReadTyping.LineEnds | crates/brush-builtins-vendored/src/read.rs:469-572 | what such a line returns at the end of the input, at an interrupt, at the end-of-transmission key, and at a timeout |
| ReadTyping.LoneBackslash | crates/brush-builtins-vendored/src/read.rs:469-572 | a last backslash is lost at the end of the input and kept by a timeout |
| ReadTyping.LimitEndsLine | crates/brush-builtins-vendored/src/read.rs:469-572 | a limit ends the line right after the stroke that reaches it, counting one byte for a character of 7 bits and two for any other |
| ReadAssign.Environment.AssignToNamedVariables | crates/brush-builtins-vendored/src/read.rs:196-231 | the loop over the names assigns variable i its value, and stops at the first failure with the assignments before it in place |
| ReadAssign.NoFieldsJoined | crates/brush-builtins-vendored/src/read.rs:196-269 | with one variable or more no two fields are ever joined: the last variable gets a verbatim suffix or nothing |
| ReadAssign.AssignedValues | crates/brush-builtins-vendored/src/read.rs:196-231 | each variable holds its value afterwards, and variables not named keep theirs |
| OptionString.ParseOptionSpec | crates/brush-builtins-vendored/src/getopts.rs:55-82 | the loop over the option string: silent exactly with a leading ':', an option for every other character, with an argument exactly if ':' follows its first occurrence |
| DecimalText.NumberReadsBack | crates/brush-builtins-vendored/src/getopts.rs:120-132 | a number written in decimal, negative ones included, reads back unless it is too wide or no sign is allowed, and then it does not read |
| DecimalText.TextsThatRead | crates/brush-builtins-vendored/src/getopts.rs:120-132 | only digits read as a number, after one sign or none; a plus sign changes nothing, a minus sign reads only where numbers are signed |
| GetoptsScan.RemainingFromFirstLetter | crates/brush-builtins-vendored/src/getopts.rs:163-270 | from an argument's first letter, what remains is the scan of the list from there |
| GetoptsScan.StepTakesFirst | crates/brush-builtins-vendored/src/getopts.rs:163-307 | from any cursor one step reports the first thing the left-to-right scan still has, and leaves the rest; when nothing is left it stands at the first operand, between 1 and one past the last argument |
| GetoptsScan.StepAdvances | crates/brush-builtins-vendored/src/getopts.rs:248-269 | a step that finds an option moves to a later argument, or to a later character of the same |
| Getopts.ExecutionContext.ResolveOptionArgument | crates/brush-builtins-vendored/src/getopts.rs:275-307 | an option's argument is the rest of the word, or the next word, or missing |
| Getopts.ExecutionContext.ParseNextOption | crates/brush-builtins-vendored/src/getopts.rs:163-270 | one call's report, next index and remembered place are those of the cursor's step |
| Getopts.ExecutionContext.UpdateVariables | crates/brush-builtins-vendored/src/getopts.rs:330-377 | the variables written, in order, up to the first that is read-only |
| Getopts.ExecutionContext.Execute | crates/brush-builtins-vendored/src/getopts.rs:102-155 | a whole call, the detection of a changed OPTIND included |
| GetoptsRuns.CallFrame | crates/brush-builtins-vendored/src/getopts.rs:102-377 | from any stored state a call writes five variables at most and fails only if one of them is read-only |
| GetoptsRuns.CallFacts | crates/brush-builtins-vendored/src/getopts.rs:102-377 | from any stored state a call that does not fail leaves OPTIND from 1 to one past the last argument, reports the step, and remembers where it ended |
| GetoptsReports.CallReports | crates/brush-builtins-vendored/src/getopts.rs:102-377 | what any call that does not fail leaves in the result variable, OPTARG and OPTIND, case by case from the option string and the word and letter under the cursor: which words hold options, unknown letters with and without silent errors, options alone, with their argument, and without it |
| GetoptsReports.NamesAccepted | crates/brush-core-vendored/src/env.rs:656-664 | which names are accepted for the result variable |
| GetoptsRuns.IndexReadsBack | crates/brush-builtins-vendored/src/getopts.rs:119-138 | OPTIND reads back as the step's index, or as 1 if it is too wide for 32 bits |
| GetoptsRuns.RunFollowsScan | crates/brush-builtins-vendored/src/getopts.rs:102-377 | over any run of calls, whatever the script does in between, call k finds an option exactly while the scan has a k-th report, and reports it; the call after the last ends the run with OPTIND at the first operand; the result variable may be any but the hidden one that holds the place in a cluster, and is not read where the call writes it again |
| GetoptsRuns.FreshRun | crates/brush-builtins-vendored/src/getopts.rs:119-138 | a run that starts with OPTIND 1 or less and nothing remembered reports the scan of the whole list |
| GetoptsRuns.AssigningOptind | crates/brush-builtins-vendored/src/getopts.rs:126-135 | assigning OPTIND starts the argument over if and only if the value differs from the one last written or nothing was remembered |
| Intervals.Merge | scripts/session-stats/optimize_read_config.py:146-157 | the sort-and-fold merge keeps the lines of every input and is canonical for proper ranges; in general the result is spread out, keeps exactly the inverted ranges that nothing absorbs, and is canonical if and only if every inverted range is absorbed |
| Intervals.CanonicalUnique | scripts/session-stats/analyze_selector_reads.py:111-123 | a set of lines has one canonical list: sorted, with no two ranges overlapping or adjacent |
| Intervals.InvertedSurvives | scripts/session-stats/optimize_read_config.py:146-157 | beside one proper range an inverted one is absorbed if and only if it begins inside or right after it, or ends right before its own start and begins where it does; a list where it stays and one where it goes |
| Intervals.AddInterval | scripts/session-stats/read_optimizer.py:261-278 | the one-pass insert into canonical coverage gives canonical coverage of the lines and the new range |
| Intervals.InsertIsMerge | scripts/session-stats/read_optimizer.py:261-278 | on canonical coverage, inserting is merging the list with the item |
| Intervals.IsCovered | scripts/session-stats/read_optimizer.py:251-258 | the early exit is right: covered exactly if one range contains the target |
| Intervals.Contained | scripts/session-stats/optimize_read_config.py:160-164 | contained exactly if one range contains the target |
| Intervals.Subtract | scripts/session-stats/optimize_read_config.py:167-186 | subtraction gives exactly the target's lines not covered, as a canonical list |
| Intervals.CoverageTestsAgree | scripts/session-stats/optimize_read_config.py:160-186 | on canonical coverage, one containing range, every line covered, and nothing left after subtraction are the same |
| SelectorReads.ClassifyIsMergeShape | scripts/session-stats/analyze_selector_reads.py:126-144 | the six labels are exactly the six shapes that merging the two ranges can take; for an inverted follow-up the label still tells the shape unless it is labelled inside and not absorbed |
| SelectorReads.Analyze | scripts/session-stats/analyze_selector_reads.py:174-259 | the merged ranges have the lines of all reads; their sizes count those lines if and only if every range that ends more than a line before it begins is absorbed; with every inverted range absorbed, span, gaps and gain are the sizes of the sets they stand for |
| SelectorReads.NoGainIffAllInside | scripts/session-stats/analyze_selector_reads.py:174-259 | a group gains no line exactly when every follow-up with lines is labelled inside, and every follow-up is labelled once |
| SelectorReads.BoundedLinesAre | scripts/session-stats/analyze_selector_reads.py:174-259 | the reads whose lines count are all the ranges and first pages with known lines, in order |
| ReadReplay.ReturnedWithinCap | scripts/session-stats/optimize_read_config.py:315-343 | a call returns at least one line and no more than the cap, and beyond its first line none past the file or the request |
| ReadCosts.ReturnedAsFarAsAllowed | scripts/session-stats/optimize_read_config.py:315-343 | a read returns its first line and exactly the lines after it that request, default page, file and both caps allow |
| ReadReplay.ChunkRange | scripts/session-stats/optimize_read_config.py:357-368 | the chunks partition the range, in order, in pieces no longer than the cap |
| ReadReplay.ReplayPair | scripts/session-stats/optimize_read_config.py:371-415 | the tokens and calls are those of phase one's charges and of the chunks filling exactly the observed lines the charges lack; the final coverage is exactly the lines delivered by phase one and the lines observed |
| ReadReplay.PhaseOneExact | scripts/session-stats/optimize_read_config.py:385-402 | the charged ranges cover every returned range, and each brings a line the earlier ones lack |
| ReadCosts.ChargedCalls | scripts/session-stats/optimize_read_config.py:384-402 | the charges are, in order, those of exactly the calls that return a line the charges before them lack, each with its own range and marked as bare if its call is |
| ReadCosts.ObservedLines | scripts/session-stats/optimize_read_config.py:385-387 | the observed lines are those between the ends of what some call really returned |
| ReadCosts.CostOfCharges | scripts/session-stats/optimize_read_config.py:346-354 | any charges cost 200 tokens each and the tokens of their lines, those of bare reads of a summarised file at 35 of 100 parts |
| ReadReplay.ReplayDelivers | scripts/session-stats/optimize_read_config.py:403-415 | the final coverage is exactly the lines phase one delivered and the observed lines |
| ReadReplay.PhaseTwoCost | scripts/session-stats/optimize_read_config.py:403-415 | phase two charges each missing observed line exactly once, in disjoint chunks within the cap |
| ReadOptimizer.DeliveredContainsRequest | scripts/session-stats/read_optimizer.py:221-248 | a delivery has between one and the maximum of lines, begins at or before the request, and contains it when the maximum leaves room |
| ReadLedger.DeliveryOf | scripts/session-stats/read_optimizer.py:221-248 | which lines a call asks for and which it is given: context before it as far as line 1 allows, context behind it only behind a range, and the cap cutting the end |
| ReadOptimizer.ReplayGroup | scripts/session-stats/read_optimizer.py:316-427 | the totals over one group are those of booking each call as paid, unbounded or skipped |
| ReadOptimizer.Replay | scripts/session-stats/read_optimizer.py:316-427 | the totals over all groups |
| ReadOptimizer.SkippedMeaning | scripts/session-stats/read_optimizer.py:346-407 | a later call is skipped exactly when each of its lines was delivered by an earlier paid call; one whose end lies before its start, when any line from its end to its start was |
| ReadOptimizer.FlaggedGroupSkipsRest | scripts/session-stats/read_optimizer.py:346-407 | in a group flagged as covered by its first read every later bounded read is skipped |
| ReadOptimizer.ReplayConserves | scripts/session-stats/read_optimizer.py:316-427 | every call is paid or skipped once, and the per-kind figures stay within the totals |
| ReadLedger.TotalsAreSums | scripts/session-stats/read_optimizer.py:281-427 | each of the sixteen totals of a replay is the sum of what the calls and groups add to it by their own figures: the price of every paid call, with its lines at its own rate or at the budget if that is less, and the numbers of calls, skips, cuts and groups of each kind |
| Pareto.ParetoFrontier | scripts/session-stats/read_optimizer.py:446-457 | tokens strictly rise and calls strictly fall along the result, every member is within the budgets, every result within them costs no less on either axis than some member, and none is better than a member on one axis without being worse on the other |
| LongestRepeat.FindLongestRepeat | scripts/session-stats/sync.py:502-521 | the result is a genuine repeat without overlap, no pair of positions whose full extension passes both tests is longer, the earliest of the longest is taken, and there is none exactly if no pair qualifies |
| LongestRepeat.LongestIsUnique | scripts/session-stats/sync.py:502-521 | the specification has one answer |
| LongestRepeat.CandidatesInRange | scripts/session-stats/sync.py:505-511 | the size shortcut and the loop bounds lose no candidate |
| LongestRepeat.SubstantialIsHalf | scripts/session-stats/sync.py:515-517 | a stretch counts exactly if at least two of its lines and at least half of them span four characters between their first and last that are no white space |
| SessionLog.SessionRecords.ParseLines | scripts/session-stats/sync.py:648-732 | parsing from a line on gathers the rows of every line, numbered by its place in the whole file, and counts lines and bytes |
| SessionLog.SessionRecords.IngestAssistant | scripts/session-stats/sync.py:740-794 | the rows of an assistant message |
| SessionLog.SessionRecords.IngestToolResult | scripts/session-stats/sync.py:863-880 | the rows of a tool result |
| SessionLog.LogBatchConcat | scripts/session-stats/sync.py:680-723 | reading on from where an earlier reading stopped adds the rows that reading everything at once adds |
| SessionTables.Database.WriteRecords | scripts/session-stats/sync.py:916-1032 | what one transaction does to the tables and the session row |
| SessionTables.CallAndResultCommute | scripts/session-stats/sync.py:959-985 | the upserts of a call and of its result commute, whether or not the row exists |
| SessionTables.AppliedConcat | scripts/session-stats/sync.py:916-995 | two batches one after the other leave what one batch with all their rows leaves |
| SessionTables.AppliedOwn | scripts/session-stats/sync.py:920-995 | a batch acts on its own file's rows alone |
| SessionTables.EditRowMeaning | scripts/session-stats/sync.py:959-985 | an edit's row combines its last call and its last result, in whatever order they come |
| LogSync.SyncFile | scripts/session-stats/sync.py:1048-1073 | deciding, parsing and writing one file |
| LogSync.SkipLosesNothing | scripts/session-stats/sync.py:1066-1067 | a file is skipped only when all its lines are stored |
| LogSync.SyncCatchesUp | scripts/session-stats/sync.py:916-1073 | from any good state, a sync of a growing file leaves the rows of a rebuild at some point between its beginning and its end, and no other file's rows changed |
| LogSync.IncrementalEqualsFull | scripts/session-stats/sync.py:680-1073 | after any run of appends and syncs one more sync of the log leaves exactly the rows, line count, offset and header of one full rebuild |
| LogSync.RowsAreAlwaysARebuild | scripts/session-stats/sync.py:680-1073 | at any time in a run the rows are those of a rebuild of the lines counted |
| SessionRows.RebuildSaysLog | scripts/session-stats/sync.py:680-995 | one rebuild leaves of any log exactly the rows its lines call for, table by table and column by column: messages and answers with their joined texts, results, the last call of each id in a line, the last edit and last edit result of each id, with warnings of successful results only, and each section of the last edit that has it |
| SessionRows.LogDeterminesRows | scripts/session-stats/sync.py:680-995 | those conditions leave no choice: two tables that meet them for a log have the same rows of the file |
| SessionRows.SyncSaysLog | scripts/session-stats/sync.py:680-1073 | after any run of appends and syncs of a new file one more sync leaves those rows, the number of lines and bytes and the header of its log, and every row and session of other files as it was |
| SessionRows.WhatASyncReads | scripts/session-stats/sync.py:1048-1073 | when a sync reads nothing, the whole file, or on from the stored place, from the stored figures and those the file shows, and what that leaves in tables that hold anything |
| ChangelogText.WrittenLinesReadBack | scripts/fix-changelogs.ts:114-120 | text written from plain lines splits into those lines |
| ChangelogText.HeadingOfTitle | scripts/fix-changelogs.ts:93-104 | a heading written for a title is read as a heading with that title |
| ChangelogPatterns.ReleaseHeadings | scripts/fix-changelogs.ts:89-100 | what a heading of a release is made of, and its title |
| ChangelogPatterns.SubsectionHeadings | scripts/fix-changelogs.ts:93-104 | what a heading of a subsection is made of, and its title |
| ChangelogPatterns.ListItems | scripts/fix-changelogs.ts:106-108 | what a line that begins a list item is made of |
| ChangelogPatterns.BlankLines | scripts/fix-changelogs.ts:191-197 | a line is blank exactly if it has nothing but white space |
| ChangelogPatterns.LinesOfText | scripts/fix-changelogs.ts:114-120 | the lines of a text with any mixture of the three line ends |
| Changelog.ParseReleaseSection | scripts/fix-changelogs.ts:157-189 | the index loops give the leading lines and the subsections up to each next heading |
| Changelog.ParseChangelog | scripts/fix-changelogs.ts:126-155 | the index loops give the prefix and the releases up to each next heading |
| Changelog.RenderChangelog | scripts/fix-changelogs.ts:342-369 | the text written for a document |
| ChangelogRoundTrip.WrittenDocumentReadsBack | scripts/fix-changelogs.ts:126-369 | a document without blank subsections reads back from its text, up to blank lines at the ends of its parts |
| ChangelogRoundTrip.WrittenTextIsFixed | scripts/fix-changelogs.ts:126-369 | written text is a fixed point of reading and writing |
| ChangelogItems.ParseItems | scripts/fix-changelogs.ts:223-253 | each list item with the lines up to the next |
| ChangelogItems.AppendSubsectionLines | scripts/fix-changelogs.ts:207-221 | lines put below a subsection's own |
| ChangelogItems.AppendedContent | scripts/fix-changelogs.ts:207-221 | the subsection then has its own lines, perhaps a blank one, and the new lines |
| ChangelogItems.SubsectionHasItem | scripts/fix-changelogs.ts:265-272 | whether one of the subsection's items has the given lines |
| ChangelogNormal.NormalizeSection | scripts/fix-changelogs.ts:302-340 | the loop with its map of titles merges namesakes, drops blank subsections, and counts both |
| ChangelogNormal.MergedMeaning | scripts/fix-changelogs.ts:311-331 | after merging no subsection is blank, no title occurs twice, a title is there exactly if it had lines, and below it are all the lines that stood below it, in order |
| ChangelogNormal.NothingToDo | scripts/fix-changelogs.ts:311-331 | the counters are zero exactly when no subsection is blank and no title occurs twice |
| ChangelogResult.CountersAddUp | scripts/fix-changelogs.ts:311-331 | the subsections counted as removed are the blank ones, and what is left of the others is fewer by those counted as merged |
| ChangelogNormal.OrderedIsStableSort | scripts/fix-changelogs.ts:297-335 | the order of titles in the unreleased part is a stable sort |
| ChangelogPromote.LineRangeSet | scripts/fix-changelogs.ts:255-263 | the set of the line numbers in the items' ranges |
| ChangelogPromote.KeptLines | scripts/fix-changelogs.ts:383-387 | taking items out of a subsection keeps exactly the lines that belong to no chosen item, and leaves none to choose |
| ChangelogPromote.DocumentEditor.PromoteSection | scripts/fix-changelogs.ts:382-397 | promoting the items of one release |
| ChangelogPromote.DocumentEditor.PromoteAll | scripts/fix-changelogs.ts:379-398 | the loop over the releases promotes each once, although a part made at the front in the middle of it makes one of them come up twice |
| ChangelogFix.FixChangelogContent | scripts/fix-changelogs.ts:371-423 | the whole fix |
| ChangelogFix.FixIsIdempotent | scripts/fix-changelogs.ts:371-423 | for any text and any promotable lines, fixing the result again with nothing to promote returns it unchanged with every counter zero |
| ChangelogSurvival.PromotedItemsArrive | scripts/fix-changelogs.ts:371-423 | every item taken out of a release is read, whole, below its title in an unreleased part of the text that the fix writes |
| ChangelogSurvival.NoItemIsLost | scripts/fix-changelogs.ts:371-423 | every list item of the text is read again in the fixed text below its title: whole in an unreleased part if it was to be moved, else as the beginning of an item in a part with its release's heading |
| ChangelogResult.ItemsAreNumbered | scripts/fix-changelogs.ts:126-253 | the line by which an item is chosen is the line of the file, counted from 1, at which it begins |
| ChangelogResult.FixedTitlesInOrder | scripts/fix-changelogs.ts:7-340 | in a rewritten text the subsections of an unreleased part stand in the order Breaking Changes, Added, Changed, Fixed, Removed, all others after them in the order in which they first had any lines; in a released part all stand in that order |
| ChangelogResult.FixedKeepsFrame | scripts/fix-changelogs.ts:371-423 | a rewritten text keeps the lines before the first release, every heading in its order and the lines right below it; an unreleased part is added in front exactly if items were moved and there was none |
| ChangelogResult.PartsStay | scripts/fix-changelogs.ts:274-286 | moved items go into the first unreleased part, or one made in front; every other part stays in its place without the items taken from it |
| ChangelogResult.MovedItemOnce | scripts/fix-changelogs.ts:207-300 | a moved item is put below the last subsection with its title, or a new one at the end, unless an item with the same lines is there already |
| ChangelogResult.FixAddsUp | scripts/fix-changelogs.ts:371-423 | every subsection is written, merged or removed, and counted once |
| ChangelogResult.PromotedAreCounted | scripts/fix-changelogs.ts:378-398 | the items counted as promoted are those of the released parts that begin at the given lines |
| DiffItems.ScanDiff | scripts/fix-changelogs.ts:433-497 | the items a diff adds and removes |
| DiffItems.HunkIsRead | scripts/fix-changelogs.ts:453-497 | a whole hunk adds its list items, each numbered from the hunk's header by the lines of the new file before it |
| ChangelogPatterns.HunkHeaders | scripts/fix-changelogs.ts:453-459 | what a hunk header is made of, and the line at which its hunk starts |
| ChangelogPatterns.FileIsOpened | scripts/fix-changelogs.ts:441-461 | the headers of a file set its path and count its hunks from 0 again, and what stands before the first hunk adds no item |
| ChangelogPatterns.OtherLines | scripts/fix-changelogs.ts:461-497 | inside a hunk every other line counts for nothing |
| DiffMatching.PairItems | scripts/fix-changelogs.ts:499-517 | the greedy pairing pairs, of each file and text, the first additions and the first removals |
| ChangelogPatterns.SameItem | scripts/fix-changelogs.ts:429-431 | an addition and a removal match exactly by file and by text without the white space around it |
| DiffMatching.PairsPerItem | scripts/fix-changelogs.ts:499-517 | of each file and text exactly the smaller of additions and removals are paired, on both sides |
| DiffMatching.CollectPromotableAddedItemLines | scripts/fix-changelogs.ts:433-545 | the lines collected by file are exactly those of the promotable additions |
| DiffMatching.PromotableIsTheExcess | scripts/fix-changelogs.ts:519-542 | per hunk, the unpaired additions in excess of the unpaired removals are promotable |
| DiffMatching.CollectedLinesPerHunk | scripts/fix-changelogs.ts:433-542 | in a diff that opens no hunk of a file twice, the additions of a hunk are numbered upwards, and as many distinct lines are collected for it as its unpaired additions exceed its unpaired removals by |
| DiffMatching.MovedItemsAreNotPromoted | scripts/fix-changelogs.ts:499-542 | a diff that only moves items within files promotes nothing |

## Left out

- Terminals, polling, timeouts of file descriptors and cancellation of `read`: the line reader takes a finite sequence
  of events.
- Array assignment of `read -a`, which only splits without a limit and stores the list.
- The text-to-expression arithmetic parser, word expansion and dynamic variables: parsing is an arbitrary function from
  text to an optional expression, and variable scopes are flattened to the variable found by a name.
- Messages on the error stream, and the `OPTERR` variable that controls them.
- SQLite, threads, process pools, row ids, token counts, the columns derived from a file's path, and the decoding of
  JSON: tables are maps by key, and a log entry is a value with the fields that become rows.
- The grammars of edit input and of edit results: an edit call carries its sections, and a result whether it looks
  successful and which warnings it shows.
- Floating-point token rates: costs are exact reals.
- The file system: a sync is given what the file holds at the three moments it looks.
- Selector parsing and database queries of the read statistics, configuration sweeps, reports and plots.
- The other builtins, and the release, benchmark and plotting scripts, which are mostly input and output.
- Changelog documents are values, not objects: that the map of titles and the list of subsections share their
  entries is modelled by the map holding places in the list.
- SessionLog.SessionRecords.IngestAssistant: without the token counts of the rows, which no other column depends on.
- SessionLog.SessionRecords.IngestToolResult: without the token counts, for the same reason.
- SessionTables.Database.WriteRecords: without the token counts and the columns taken from a file's path.
- SelectorReads.ClassifyIsMergeShape: for a first range that is not inverted itself.
- ChangelogSurvival.NoItemIsLost: an item that stays may have grown, because merging puts the text that opens a later
  part of the same name below the last item of an earlier one; what a promoted duplicate is compared with is its text.
- IfsSplit.SplitLineByIfs: lines have at most 2^63 - 1 bytes, as the source's strings do, because the unlimited split
  counts with the largest machine integer.
- ReadBuiltin.LimitStopsEarly: for limits of at least one, because the source checks the limit after adding a character.
- GetoptsRuns.RunFollowsScan: for fewer than 2^31 - 1 arguments, because beyond that OPTIND no longer reads back
  (`GetoptsRuns.IndexReadsBack`).
- LogSync.IncrementalEqualsFull: the log only grows and is seen in whole lines; a file that is rewritten in place is
  not modelled.
- Intervals.Merge: `merge_intervals` of the selector analysis is the same algorithm and has no model of its own.
- ChangelogFix.FixIsIdempotent: the second fix is given no promotable lines, since the line numbers of the first are
  those of the old text.
