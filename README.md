# pvcheck in Dafny

pvcheck checks a program's output against a test file. The test file
is a sequence of sections, each opened by a `[TAG]` header. Special
sections whose tag starts with `.` describe a test: `.TEST` starts a
test case, `.ARGS` gives its command-line arguments, `.INPUT` its
standard input and `.FILE` the contents of a temporary file. Every
other section holds expected output. pvcheck runs the program once per
test case and splits the program's output into sections the same way.
It then compares each expected section with the received section of
the same tag, in order or ignoring order. The results go to one of
several formatters: text, JSON, CSV, HTML, or an interactive terminal
view. Text is translated through a small catalog.

The repository holds two generations of the checker. The current one
is under `pvcheck/` and the older one under `src/`. This model covers
the core of both:

- The line matcher: token, line and section comparison (`Match`).
- The section parsers (`Parser`, `LegacyParser`).
- The test data (`TestData`, `LegacyTestData`).
- The orchestrators that run a suite and emit formatter events
  (`PvCheck`, `LegacyPvCheck`).
- How the executor classifies a finished process and truncates its
  output (`Executor`).
- The Valgrind post-processing (`Valgrind`).
- Every formatter (`Formatter`, `LegacyFormatter`, `Json`, `Csv`,
  `LegacyCsv`, `Html`, `Interactive`).
- The test-data exporter (`Exporter`).
- The translation service (`I18n`, `LegacyI18n`).

Shared helpers live in a few extra modules:

- `Common`: `Option` and `Outcome`. `Outcome` is a value or a raised
  Python exception.
- `Text`: string splitting, stripping and `int()` parsing.
- `OrderedMap`: an insertion-ordered dictionary.
- `Events`: the formatter call protocol, as a datatype of calls.

How the source's form was carried over:

- Classes whose methods update fields in place are Dafny classes.
- Each method is specified by a pure transition function on the
  object's state: `State() == OnX(old(State()), ...)`.
- What the source promises is proved about those transition functions
  as lemmas.
- Loops in the source are methods with loop invariants, proved against
  the function that specifies them.
- A Python exception is a `Raised(error)` outcome.
- Where a call sequence stops at an exception, the model stops there
  too.

## Model

| member | source | states |
|---|---|---|
| Match.FractionDigits | src/match.py:11 | a fractional token is never an integer token, and the `frac` group is shorter than the token |
| Match.FractionDigitsOf | src/match.py:11 | sign, digits, '.', digits is always fractional, with the fraction's length as digit count |
| Match.IntTokenParses | src/match.py:64-68 | `int()` accepts every integer token, giving its signed decimal value |
| Match.CompareElements | src/match.py:47-73 | the kind of comparison is chosen by the expected token: fractional (rounded check), then integer (by value), then exact string equality; a non-numeric actual is a mismatch, never an error |
| Match.IntTokensByValue | src/match.py:64-70 | two integer tokens match iff they denote the same integer |
| Match.IntSpellings | src/match.py:64-70 | "+42" and "042" match "42"; "-0", "+0" and "00" match "0" |
| Match.CaseSensitive | src/match.py:71-73 | plain words compare case-sensitively |
| Match.CountMatches | src/match.py:85 | the count of agreeing zipped positions is at most the shorter token count |
| Match.CountMatchesFull | src/match.py:85 | the count is full iff every zipped position agrees |
| Match.Ratio | src/match.py:87 | the line difference lies in [0, 1] and is 0 iff nothing is unmatched |
| Match.CompareTokens | src/match.py:85-87 | the difference of two token sequences lies in [0, 1] |
| Match.CompareLines | src/match.py:76-87 | the difference of two lines lies in [0, 1] |
| Match.LineExact | src/match.py:76-87 | a line difference is 0 iff both lines have as many tokens and each pair matches |
| Match.WhitespaceLayout | src/match.py:83-84 | replacing one run of whitespace by another never changes a line difference, on either side |
| Match.SameTokens | src/match.py:83-84 | lines with the same `split()` tokens score the same against any line |
| Match.CompareLinesSelf | src/match.py:76-87 | every line matches itself with difference 0, given only that the fractional check accepts a fractional token against itself at its own number of fraction digits, which Python's `float(t) == round(float(t), d)` does |
| Match.ThreeQuartersWrong | src/match.py:76-87 | 'b c a d' against 'a b c d' scores 0.75 |
| Match.CompareOrdered | src/match.py:90-100 | one difference per position of the longer section, each in [0, 1], and 1.0 wherever one side is absent |
| Match.MaxDiff | src/match.py:14-44 | `max(diffs, default=0)`: 0 for no differences, otherwise an element that bounds all of them |
| Match.MaxDiffZero | src/match.py:14-44 | over non-negative differences the maximum is 0 iff every difference is 0 |
| Match.OrderedPerfect | src/match.py:90-100 | an ordered comparison is perfect iff the sections have equal length and every line pair is exact |
| Match.OrderedSelf | src/match.py:90-100 | a section compared with itself in order scores 0 everywhere, under the same self-rounding condition |
| Match.CompareUnordered | src/match.py:103-131 | the result is that of some greedy exact pairing, where each actual line takes any remaining expected line at difference 0, then the unpaired expected lines in index order at 1.0 |
| Match.UsedCard | src/match.py:114-124 | a greedy pairing takes one distinct expected index per paired actual line |
| Match.PairedAtMostOnce | src/match.py:118-123 | no expected line is paired twice |
| Match.UnpairedCount | src/match.py:128-130 | the unpaired expected lines plus the paired ones make up all expected lines |
| Match.UnorderedShape | src/match.py:103-131 | unordered output has length actual + unpaired expected; every diff is 0.0 or 1.0; an actual line is unmatched iff it scores 1.0; a match is an exact match; the tail holds the unpaired expected lines in index order at 1.0 |
| Match.PermutationMatchesAll | src/match.py:103-131 | a permutation of pairwise distinguishable expected lines scores all zeros, with the matches the actual lines in actual order, under the same self-rounding condition |
| Match.CompareSections | src/match.py:14-44 | one difference in [0, 1] per match, and never fewer matches than actual lines, in either mode |
| Match.OrderedMatchesShape | src/match.py:38-41 | in ordered mode the matches are the expected lines followed by None up to the actual length, and the length is the longer section's |
| Parser.HeaderTag | pvcheck/parser.py:23 | a recognised header always has a non-empty tag |
| Parser.BracketTagOf | pvcheck/parser.py:23 | whitespace, a tag, whitespace and ']' are recognised whatever follows |
| Parser.BracketTagSound | pvcheck/parser.py:23 | every recognised bracket is whitespace, a tag (first character a letter, '.', '_' or '-'), whitespace and ']' |
| Parser.HeaderOf | pvcheck/parser.py:7-23 | any text free of '[' may precede the bracket of a header |
| Parser.HeaderSound | pvcheck/parser.py:23 | a header line is '['-free text, '[', whitespace, a tag, whitespace, ']' and anything |
| Parser.HeaderLine | pvcheck/parser.py:23 | "[TAG]" is a header with tag TAG |
| Parser.SkippedRStrip | pvcheck/parser.py:36-47 | right-stripping never turns a kept line into a skipped one or back |
| Parser.Classify | pvcheck/parser.py:36-47 | a line is ignored iff blank or a comment, a header iff kept and recognised (with its non-empty tag), and content otherwise, stored right-stripped |
| Parser.Kinds | pvcheck/parser.py:35 | one classification per line, headers tagged, content not skipped |
| Parser.Pending | pvcheck/parser.py:41-49 | a pending section is emitted iff its tag or its content is non-empty |
| Parser.ParseSections | pvcheck/parser.py:26-49 | the generator loop yields exactly the sections of the scan over the classified lines |
| Parser.ParseContents | pvcheck/parser.py:35-47 | the sections' contents, concatenated in order, are exactly the kept non-header lines right-stripped; no blank or comment line survives |
| Parser.ParseTags | pvcheck/parser.py:33-44 | one section per header in input order, preceded by an empty-tag section exactly when content comes before the first header |
| Parser.ParseNoEmptySection | pvcheck/parser.py:40-49 | no ('', []) section is ever produced, and empty input gives no section |
| Parser.RoundTrip | pvcheck/parser.py:26-49 | sections written as "[TAG]" lines followed by plain content lines parse back to themselves |
| LegacyParser.LegacyHeaderTag | src/parser.py:5 | a recognised legacy header has a non-empty tag |
| LegacyParser.LegacyHeaderSound | src/parser.py:5-21 | a legacy header is whitespace, '[', whitespace, a tag without '-', whitespace and ']' |
| LegacyParser.LegacyHeaderOf | src/parser.py:5-21 | every such line is a legacy header whatever follows the ']' |
| LegacyParser.LegacyHeaderIsHeader | src/parser.py:5 | the current recogniser accepts every legacy header with the same tag |
| LegacyParser.HyphenatedTag | src/parser.py:5 | "[a-b]" is a header now but not in the older parser |
| LegacyParser.PromptBeforeHeader | src/parser.py:5 | "n: [A]" is a header now but not in the older parser |
| LegacyParser.LegacyClassify | src/parser.py:17-29 | as the current classification, but with the legacy recogniser and content kept verbatim |
| LegacyParser.LegacyScan | src/parser.py:16-30 | the older scan always yields at least one section |
| LegacyParser.LegacyParseSections | src/parser.py:8-30 | the older generator loop yields exactly the sections of the legacy scan |
| LegacyParser.LegacyParseContents | src/parser.py:17-29 | the contents, concatenated, are the lines that are neither skipped nor legacy headers, verbatim and in order |
| LegacyParser.LegacyParseSections_Shape | src/parser.py:22-30 | at least one section comes out, only the last may be ('', []), and empty input gives exactly that section |
| TestData.SectionText | pvcheck/testdata.py:17-21 | a section's text is its content lines each followed by '\n', and "" for no content |
| TestData.TextLines | pvcheck/testdata.py:17-21 | splitting a section's text into lines gives its content back |
| TestData.Find | pvcheck/testdata.py:54-56 | the index found carries the tag and no earlier one does; none is found only when no section carries it |
| TestData.FindTags | pvcheck/testdata.py:54-56 | a tag is found iff it is one of the stored tags |
| TestData.Lookup | pvcheck/testdata.py:54-61 | the stored content is absent iff the tag is not stored |
| TestData.MergeShape | pvcheck/testdata.py:37-52 | adding a section keeps the tags unique and appends its tag at the end only when it is new |
| TestData.MergeLookup | pvcheck/testdata.py:49-52 | adding a section changes only its own tag's entry, by appending its content |
| TestData.MergeAllUnique | pvcheck/testdata.py:29-35 | the merged map never holds two entries with the same tag |
| TestData.Dedup | pvcheck/testdata.py:49-52 | the first-appearance order of the tags: the same elements, none repeated |
| TestData.MergeAllTags | pvcheck/testdata.py:37-52 | repeated tags appear once each, in order of first appearance |
| TestData.MergeAllLookup | pvcheck/testdata.py:37-52 | each tag holds the contents of all its sections, concatenated in order |
| TestData.ParseOptionsAppend | pvcheck/testdata.py:46-82 | options parsed from two blocks: the later block wins on shared tags |
| TestData.ParseOptionsKeys | pvcheck/testdata.py:79-82 | a tag has options iff some non-blank line starts with it |
| TestData.LastOptionsWin | pvcheck/testdata.py:79-82 | the last line starting with a tag gives that tag the set of its other words |
| TestData.Regular | pvcheck/testdata.py:73-75 | exactly the sections whose tag is non-empty and does not start with '.' |
| TestData.RegularAppend | pvcheck/testdata.py:73-75 | filtering preserves order |
| TestData.CaseStep | pvcheck/testdata.py:37-52 | one added section: `.SECTIONS` only updates the options; any other section is merged |
| TestData.TestCase.constructor | pvcheck/testdata.py:29-35 | a case built from sections holds them added in order |
| TestData.TestCase.AddSection | pvcheck/testdata.py:37-52 | `.SECTIONS` updates the options (later entries replacing earlier ones) and is never stored; any other section is merged into the map |
| TestData.TestCase.FindSection | pvcheck/testdata.py:54-56 | the section stored under the tag, absent iff the tag is not stored |
| TestData.TestCase.FindSectionContent | pvcheck/testdata.py:58-61 | the stored text, "" for an existing empty section, and the default only when the tag is absent |
| TestData.TestCase.SectionOptions | pvcheck/testdata.py:63-65 | the options given for the tag, or the empty set |
| TestData.TestCase.SectionList | pvcheck/testdata.py:67-77 | all sections, or exactly the non-special ones |
| TestData.CaseContents | pvcheck/testdata.py:29-52 | a case's content for a tag is the concatenation of every section added with it, `.SECTIONS` aside |
| TestData.GroupTests | pvcheck/testdata.py:130-144 | the generator yields exactly the groups of the recursive definition |
| TestData.GroupCount | pvcheck/testdata.py:130-144 | one group per `.TEST`, plus the pending one when a `.TEST` was seen or sections remain |
| TestData.GroupNames | pvcheck/testdata.py:136-140 | the names are the pending name, then each test's first line stripped or "Test-n", in order |
| TestData.GroupMembers | pvcheck/testdata.py:134-142 | the groups hold every non-`.TEST` section, in order |
| TestData.GroupFirst | pvcheck/testdata.py:93-96 | the first group holds the sections before the first `.TEST` |
| TestData.SuiteCases | pvcheck/testdata.py:93-110 | a suite has at least one case |
| TestData.WithPrefix | pvcheck/testdata.py:99-103 | each case's sections are the prefix followed by its own |
| TestData.SuiteCount | pvcheck/testdata.py:93-110 | one case per `.TEST`, or a single unnamed case holding every section when there is none |
| TestData.SuiteNames | pvcheck/testdata.py:99-140 | the cases are named by the tests' descriptions, in order |
| TestData.SuitePrefix | pvcheck/testdata.py:99-103 | every case starts with the sections before the first `.TEST` |
| TestData.NewCases | pvcheck/testdata.py:98-103 | one newly allocated case per group, no two the same object, each holding its group's name and sections; sections are values, so no case shares storage with the prefix or another case |
| TestData.TestSuite.constructor | pvcheck/testdata.py:93-110 | the suite's cases are the cases of the grouping, in order |
| TestData.TestSuite.TestCaseAt | pvcheck/testdata.py:116-128 | case n for 0 <= n < count; otherwise exit status 2 naming test n + 1 |
| LegacyTestData.LegacyTestCase.constructor | src/testdata.py:22-24 | a case stores its sections as given, with no merging |
| LegacyTestData.LegacyTestCase.FindSection | src/testdata.py:26-30 | the first section with the tag, or the default when none has it |
| LegacyTestData.SuiteLayout | src/testdata.py:40-62 | the layout of a suite always has at least one case |
| LegacyTestData.Distribute | src/testdata.py:40-62 | the loop through the aliased `dest` list leaves exactly the layout of the recursive definition |
| LegacyTestData.PlaceNoTests | src/testdata.py:46-55 | without `.TEST`, every section stays in the prefix |
| LegacyTestData.PlaceGroups | src/testdata.py:46-55 | once a case is open, the cases grow exactly as the newer grouping yields groups |
| LegacyTestData.PlaceFirst | src/testdata.py:46-55 | sections before the first `.TEST` go to the prefix, and `.TEST` opens the first case |
| LegacyTestData.LegacyGroupsAgree | src/testdata.py:40-62 | the prefix followed by each older case's sections is exactly the newer suite's case |
| LegacyTestData.LegacySuiteCount | src/testdata.py:46-52 | with `.TEST` sections there is one case per `.TEST` |
| LegacyTestData.LegacySuiteNames | src/testdata.py:49-51 | the cases are named by the first line stripped, or "Test-k" with k the new case count |
| LegacyTestData.LegacySuitePrefix | src/testdata.py:43-55 | the prefix is the sections before the first `.TEST` |
| LegacyTestData.LegacySuiteNoTests | src/testdata.py:57-62 | with no `.TEST`, one unnamed case holds every section and the prefix becomes empty |
| LegacyTestData.NewLegacyCases | src/testdata.py:51 | a fresh case per group, with its name and its sections |
| LegacyTestData.LegacySuite.constructor | src/testdata.py:40-62 | the suite's prefix and cases are those of the layout |
| LegacyTestData.LegacySuite.Iterate | src/testdata.py:64-79 | each yielded case is the prefix followed by the case's sections merged per tag; the stored cases are left unchanged, so iterating twice gives the same cases |
| LegacyTestData.IterationCases | src/testdata.py:64-79 | each yielded case equals the newer suite's case merged per tag |
| LegacyTestData.IterationMerges | src/testdata.py:72-78 | each yielded case has unique tags, each holding all its content in order |
| Executor.ReplacePlaceholder | src/executor.py:108-109 | the same length; exactly the placeholder arguments become the temporary file name, every other argument is kept |
| Executor.ReplacedAll | src/executor.py:108-109 | no placeholder survives, and substituting again changes nothing |
| Executor.ClassifyExited | src/executor.py:83-85 | exit code 0 gives ER_OK, -SIGSEGV gives ER_SEGFAULT, any other code ER_ERROR; the status is the return code and the streams are kept |
| Executor.ClassifyFailures | src/executor.py:73-94 | a timeout gives ER_TIMEOUT and a missing executable ER_NOTFILE, both with status 0 and empty streams; any other spawn error propagates |
| Executor.FirstLinesResplit | src/executor.py:98-100 | the first k lines rejoined split back into those k lines |
| Executor.LimitStreamShape | src/executor.py:97-105 | a stream is cut to a prefix of itself holding exactly `limit` lines when it exceeds the limit, and kept otherwise |
| Executor.ApplyLimitShape | src/executor.py:95-106 | the status is never changed; the result becomes ER_OUTPUT_LIMIT iff either stream exceeds the limit, overriding any earlier result; otherwise, or without a limit, result and streams are unchanged |
| Executor.ExecProcess | src/executor.py:46-106 | the steps (placeholder substitution only with a temporary file, spawn, classification, limit) give exactly the outcome of the functional definition |
| Executor.LimitOfLines | src/executor.py:97-105 | a text of more than k terminated lines is cut to its first k lines |
| Valgrind.JudgeLine | pvcheck/valgrind.py:26-44 | one line's fate: unmarked lines go to the error stream; marked lines are checked against the three reports in order; a malformed field raises |
| Valgrind.ProcessOutput | pvcheck/valgrind.py:22-47 | the loop gives exactly the functional account of the new output and error stream, or the first exception |
| Valgrind.ValgrindExecProcess | pvcheck/valgrind.py:17-20 | the base executor on ["valgrind"] + args, with its streams processed |
| Valgrind.Unmarked | pvcheck/valgrind.py:25-28 | the lines without the "==" marker, in order |
| Valgrind.ToStderrIsUnmarked | pvcheck/valgrind.py:25-47 | the new error stream is exactly the unmarked lines, in order, terminators kept |
| Valgrind.KeptAreMarked | pvcheck/valgrind.py:29-44 | every line added to the output is a marked line of the error stream |
| Valgrind.ProcessedShape | pvcheck/valgrind.py:23-47 | the new output is the original, then "\n[VALGRIND]\n", then the kept lines in order, each a "==" line of the error stream; the new error stream is its unmarked lines |
| Valgrind.NoReportsUntouched | pvcheck/valgrind.py:25-28 | without marked lines nothing raises, nothing is kept and the error stream is unchanged |
| Valgrind.QuietRun | pvcheck/valgrind.py:22-47 | without marked lines the output gains only the empty section header |
| Valgrind.InUseFirst | pvcheck/valgrind.py:29-33 | an "in use at exit" line is judged by field 5 alone (commas removed), kept iff it is above 0 |
| Valgrind.HeapUsageRule | pvcheck/valgrind.py:34-39 | a "total heap usage" line is kept iff fields 4 and 6 differ |
| Valgrind.ErrorSummaryRule | pvcheck/valgrind.py:40-44 | an "ERROR SUMMARY" line is kept iff field 3 is above 0 |
| Valgrind.ValgrindPassThrough | pvcheck/valgrind.py:17-20 | the result code and status of the base run pass through, and its exceptions propagate |
| PvCheck.FileText | pvcheck/pvcheck.py:56 | the `.FILE` text is absent iff the test has no `.FILE` section |
| PvCheck.FileArgs | pvcheck/pvcheck.py:61-63 | exactly the arguments equal to ".FILE" become the temporary-file placeholder |
| PvCheck.BuildArgsRaises | pvcheck/pvcheck.py:58-63 | as written, building the command line raises, and then only NameError, exactly when the test has both `.ARGS` and `.FILE` and some given or `.ARGS` argument is ".FILE" |
| PvCheck.IntendedArgsShape | pvcheck/pvcheck.py:55-63 | the given arguments then the stripped `.ARGS` lines, ".FILE" becoming the placeholder when `.FILE` exists; whenever the written code does not raise, it builds exactly this list |
| PvCheck.CheckEventsSnoc | pvcheck/pvcheck.py:82-96 | one more expected section adds its event, and the verdict stays true iff that event is a perfect comparison |
| PvCheck.CheckSection | pvcheck/pvcheck.py:83-96 | the first answer with the section's tag is compared, ordered unless "unordered" is among its options; with none, a missing section is reported |
| PvCheck.ArgsFail | pvcheck/pvcheck.py:58-63 | a test with `.ARGS`, `.FILE` and a ".FILE" argument raises NameError and reports no event |
| PvCheck.ExecFails | pvcheck/pvcheck.py:65-71 | an executor exception leaves `begin_test` as the only event |
| PvCheck.ExecNotOk | pvcheck/pvcheck.py:65-76 | a result other than ER_OK fails the test after `begin_test` and `execution_result`, with no comparison |
| PvCheck.ExecOk | pvcheck/pvcheck.py:65-74 | an ER_OK result hands the verdict to the output check |
| PvCheck.PassRule | pvcheck/pvcheck.py:73-97 | a test passes iff the result is ER_OK and every expected non-special section was found and compared with max difference 0; extra answers play no part |
| PvCheck.ReportedSections | pvcheck/pvcheck.py:73-96 | comparisons and missing sections appear only after ER_OK, then exactly one per expected non-special section in order, a missing one exactly for tags the output lacks |
| PvCheck.FailuresBound | pvcheck/pvcheck.py:26-31 | 0 <= failures <= number of cases, and 0 iff no case failed |
| PvCheck.RunsSnoc | pvcheck/pvcheck.py:28-32 | a completed case adds its events and `end_test`, and one failure iff it failed |
| PvCheck.Checker.constructor | pvcheck/pvcheck.py:16-18 | a checker starts with an empty trace |
| PvCheck.Checker.CheckOutput | pvcheck/pvcheck.py:78-97 | the trace gains one event per expected non-special section in order, and the result is true iff each was compared perfectly |
| PvCheck.Checker.ExecTest | pvcheck/pvcheck.py:52-76 | the trace gains exactly the events of one test run, ending in its verdict or exception; NameError, with no event, only for a ".FILE" argument in a test with `.ARGS` and `.FILE` |
| PvCheck.Checker.SuiteStep | pvcheck/pvcheck.py:28-32 | one case's run, then `end_test` unless it raised; the failure count grows iff it failed |
| PvCheck.Checker.ExecSuite | pvcheck/pvcheck.py:20-35 | `begin_session`, each case's events followed by `end_test`, and `end_session` last even when a case raises; returns the number of failed cases, at most the number of cases (formatter calls taken not to raise) |
| PvCheck.Checker.ExecSingleTest | pvcheck/pvcheck.py:37-50 | `begin_session`, the run, then `end_test` and `end_session` whatever happens; returns the verdict (formatter calls taken not to raise) |
| LegacyPvCheck.LegacyExecFails | src/pvcheck.py:49-54 | an executor exception escapes after `begin_test` |
| LegacyPvCheck.LegacyExecNotOk | src/pvcheck.py:49-57 | a result other than ER_OK reports no comparison |
| LegacyPvCheck.LegacyExecOk | src/pvcheck.py:55-57 | ER_OK hands over to the output check |
| LegacyPvCheck.LegacyReportedSections | src/pvcheck.py:55-73 | comparison and missing events only after ER_OK, one per expected non-special section, a missing one exactly for absent tags |
| LegacyPvCheck.CommandLine | src/pvcheck.py:39-47 | the given arguments plus stripped `.ARGS`, ".FILE" mapped to the placeholder when `.FILE` exists; the input text or ""; the file text or none |
| LegacyPvCheck.LegacyChecker.constructor | src/pvcheck.py:16-18 | a checker starts with an empty trace |
| LegacyPvCheck.LegacyChecker.CheckOutput | src/pvcheck.py:59-73 | one event per expected non-special section, the first answer with its tag compared, nothing returned |
| LegacyPvCheck.LegacyChecker.ExecTest | src/pvcheck.py:37-57 | the trace gains the events of one run, and an executor exception is passed back |
| LegacyPvCheck.LegacyChecker.SuiteStep | src/pvcheck.py:24-25 | one case's run with no `end_test` after it |
| LegacyPvCheck.LegacyChecker.ExecSuite | src/pvcheck.py:20-27 | `begin_session`, the cases' events with no `end_test` between them, and `end_session` last even when a case raises; nothing is returned (formatter calls taken not to raise) |
| LegacyPvCheck.LegacyChecker.ExecSingleTest | src/pvcheck.py:29-35 | `begin_session`, the run and `end_session`; the run never gets the timeout it was given (formatter calls taken not to raise) |
| Formatter.EmitAll | pvcheck/formatter.py:114-122 | the messages written are all of the texts iff the level is enabled, and none otherwise |
| Formatter.EmitAllAppend | pvcheck/formatter.py:114-118 | writing two batches writes their concatenation |
| Formatter.ShownAccounts | pvcheck/formatter.py:161-164 | a section within `maxlines` is shown whole; a longer one shows exactly `maxlines` lines, the first `maxlines - 1` unchanged and the last "(... plus other k lines ...)" with k = n - maxlines + 1 |
| Formatter.FormatSection | pvcheck/formatter.py:148-165 | "title: <empty>" for no lines, "title: line" for one line, otherwise the title and the shown lines, right-stripped |
| Formatter.ProcArgs | pvcheck/formatter.py:206-209 | the placeholder is shown as "<temp.file>", every other argument as itself |
| Formatter.TestMaxLines | pvcheck/formatter.py:215 | sections are cut to 5 lines unless DEBUG is enabled |
| Formatter.BeginTestShape | pvcheck/formatter.py:211-224 | a separator from the second test on, then one message per optional part that is present, the command line always |
| Formatter.ResultLevel | pvcheck/formatter.py:74-89 | ER_OK is reported at DEBUG, every failure at ERROR |
| Formatter.ResultMessage | pvcheck/formatter.py:74-89 | the message is empty iff the result is ER_OK; the others name the status or the program as the table says (see also lines 236-241) |
| Formatter.ExecutionLines | pvcheck/formatter.py:235-251 | an empty command line raises IndexError; otherwise the result message when non-empty, then the quoted output at DEBUG |
| Formatter.ErrorLine | pvcheck/formatter.py:271-280 | an unexpected line when `matches[i]` is None, a missing line past the end of `got`, otherwise "line i+1 is wrong"; indexing past the end of `got` for an unmatched line raises IndexError |
| Formatter.Wrong | pvcheck/formatter.py:271-273 | exactly the positions with positive difference, ascending |
| Formatter.ErrorLinesRaisedStays | pvcheck/formatter.py:271-280 | once a position raises, the whole loop raises |
| Formatter.ErrorLinesPerWrongPosition | pvcheck/formatter.py:270-280 | one error line per wrong position, in ascending order, whenever none raises |
| Formatter.SliceTo | pvcheck/formatter.py:286 | Python's `lines[:d]` for a possibly negative d |
| Formatter.CappedShape | pvcheck/formatter.py:282-289 | fewer than `maxerrors` errors are all printed; otherwise `maxerrors - 1` lines then "(... plus other k errors ...)", so at most `maxerrors` lines appear and every error is shown or counted |
| Formatter.SixErrorsCappedAtFour | pvcheck/formatter.py:282-289 | six errors under a cap of four print three lines and "(... plus other 3 errors ...)" |
| Formatter.Prnt | pvcheck/formatter.py:302-304 | a detail cell is at most 30 characters |
| Formatter.ZipRows | pvcheck/formatter.py:309-310 | one row per position of the longer side, each 62 characters wide |
| Formatter.ProgramStatus | pvcheck/formatter.py:227-233 | `end_test` records the test status, an unset one as "error" |
| Formatter.NeverOkAgain | pvcheck/formatter.py:256-314 | once a warning or an error is set the test never becomes "ok" again |
| Formatter.OkStaysUnlessBad | pvcheck/formatter.py:253-261 | an "ok" test stays "ok" iff no later section compares wrongly; a missing section cannot spoil it (see also lines 312-314) |
| Formatter.TestOkIff | pvcheck/formatter.py:253-261 | a test ends "ok" iff its first section compared perfectly and no section compared wrongly (see also lines 312-316) |
| Formatter.MissingDowngradesError | pvcheck/formatter.py:312-314 | a missing section after an error downgrades the test to "warning" |
| Formatter.CountsAddUp | pvcheck/formatter.py:181-182 | a tag's successes, warnings and errors add up to the results recorded for it |
| Formatter.SummaryCountsAll | pvcheck/formatter.py:194-202 | the summary rows account for every recorded result exactly once |
| Formatter.MaxLen | pvcheck/formatter.py:195 | the width is that of the longest tag |
| Formatter.SummaryRows | pvcheck/formatter.py:196-202 | one row per tag, in order |
| Formatter.SummaryAligned | pvcheck/formatter.py:194-202 | every tag appears once in the summary, padded to the width of the longest tag |
| Formatter.NextStatus | pvcheck/formatter.py:253-261 | each comparison or missing section records one result for its tag and moves the status as the marks say (see also lines 312-316) |
| Formatter.NextAppends | pvcheck/formatter.py:114-118 | every call keeps verbosity and cap and only appends to the output; `begin_session`, `end_test` and `execution_result` of ER_OK at INFO write nothing |
| Formatter.SilentBelowError | pvcheck/formatter.py:114-122 | below ERROR verbosity no call writes anything |
| Formatter.TextFormatter.constructor | pvcheck/formatter.py:91-107 | the verbosity defaults to INFO, no test counted and no status |
| Formatter.TextFormatter.SetVerbosity | pvcheck/formatter.py:109-112 | only the verbosity changes, defaulting to INFO |
| Formatter.TextFormatter.LevelEnabled | pvcheck/formatter.py:120-122 | a level is enabled iff a message at it is written |
| Formatter.TextFormatter.Message | pvcheck/formatter.py:114-118 | the text is appended iff the level is enabled, nothing else changes |
| Formatter.TextFormatter.Messages | pvcheck/formatter.py:114-118 | each text in order, under the same rule |
| Formatter.TextFormatter.Fatal | pvcheck/formatter.py:144-146 | as written, `fatal` always raises AttributeError |
| Formatter.TextFormatter.FatalMessage | pvcheck/formatter.py:144-146 | as intended, `fatal` writes its text at the FATAL level, so at every verbosity from 0 |
| Formatter.TextFormatter.BeginSession | pvcheck/formatter.py:167-170 | the test count and the recorded results are reset |
| Formatter.TextFormatter.EndSession | pvcheck/formatter.py:184-204 | the summary is written only after at least two tests, and the count is reset then |
| Formatter.TextFormatter.BeginTest | pvcheck/formatter.py:211-225 | the test is counted, its messages written and its status unset |
| Formatter.TextFormatter.EndTest | pvcheck/formatter.py:227-233 | one `<program>` result with the test status |
| Formatter.TextFormatter.ExecutionResult | pvcheck/formatter.py:235-251 | the result message at its level and, at DEBUG, the quoted output |
| Formatter.TextFormatter.CollectErrors | pvcheck/formatter.py:270-280 | the loop collects exactly the error lines, or the first indexing error |
| Formatter.TextFormatter.ComparisonResult | pvcheck/formatter.py:253-298 | a perfect section records "ok" and sets the status only if unset; a wrong one records "error", sets "error" and writes the capped report |
| Formatter.TextFormatter.ReportSuccess | pvcheck/formatter.py:254-258 | the success branch |
| Formatter.TextFormatter.ReportFailure | pvcheck/formatter.py:259-293 | the failure branch, its line count, capped error lines and matched-lines note |
| Formatter.TextFormatter.MissingSection | pvcheck/formatter.py:312-316 | the status becomes "warning" unless "ok", and one "warning" result is recorded |
| Formatter.TextFormatter.Dispatch | pvcheck/formatter.py:10-23 | each event runs exactly its call's transition |
| Formatter.CombinedFormatter.constructor | pvcheck/formatter.py:353-355 | holds the given formatters in order |
| Formatter.CombinedFormatter.Forward | pvcheck/formatter.py:357-383 | every held formatter takes its step in list order; an exception stops the loop, leaving the later formatters untouched |
| Formatter.CombinedFormatter.ForwardOne | pvcheck/formatter.py:357-383 | one formatter's step, the others untouched |
| LegacyFormatter.LegacyShown | src/formatter.py:140-142 | truncation keeps `maxlines` lines, the last replaced by the template with its "%d" unsubstituted |
| LegacyFormatter.LegacyFormatSection | src/formatter.py:127-143 | the same as the newer formatter for up to one line; longer sections use the older truncation |
| LegacyFormatter.FormatSectionsAgree | src/formatter.py:127-143 | both generations agree whenever no truncation happens |
| LegacyFormatter.JoinWords | src/formatter.py:150 | joining the command line raises TypeError iff it holds the placeholder |
| LegacyFormatter.LegacyMaxLines | src/formatter.py:146 | sections are cut to 5 lines unless the verbosity is exactly DEBUG |
| LegacyFormatter.LegacyResultMessage | src/formatter.py:62-75 | ER_OUTPUT_LIMIT has no entry and raises KeyError; ER_OK gives no message; other results get the message plus "\n" (see also lines 156-164) |
| LegacyFormatter.MatchedNoteAsWritten | src/formatter.py:206-209 | as written, the note is never written: it raises TypeError or adds nothing |
| LegacyFormatter.MatchedNoteRaises | src/formatter.py:206-209 | it raises exactly when the intended note would be written |
| LegacyFormatter.MatchedNoteCounterexample | src/formatter.py:206-209 | expected two lines with the first right: the note raises where "A: The first 1 lines matched correctly" was meant |
| LegacyFormatter.DescriptionText | src/formatter.py:148-149 | one message iff there is a description |
| LegacyFormatter.CommandTexts | src/formatter.py:150-154 | the command line, then the input when it is not blank and the file when present |
| LegacyFormatter.PerfectSectionAgrees | src/formatter.py:175-176 | a perfect section writes the same messages as in the newer formatter |
| LegacyFormatter.WrongSectionAgrees | src/formatter.py:177-209 | a wrong section writes the same messages as in the newer formatter when no "first lines matched" note is due; when one is due, the older formatter raises TypeError having written the newer output minus the note and the details |
| LegacyFormatter.EmptyDiffsRaise | src/formatter.py:175 | an empty comparison raises ValueError (max of nothing) and changes nothing |
| LegacyFormatter.LegacyTextFormatter.constructor | src/formatter.py:77-91 | the verbosity defaults to INFO |
| LegacyFormatter.LegacyTextFormatter.Message | src/formatter.py:93-101 | the text is written iff verbosity >= level |
| LegacyFormatter.LegacyTextFormatter.Messages | src/formatter.py:93-101 | each text in order, under the same rule |
| LegacyFormatter.LegacyTextFormatter.Fatal | src/formatter.py:123-125 | as written, `fatal` raises AttributeError |
| LegacyFormatter.LegacyTextFormatter.BeginTest | src/formatter.py:145-154 | the description, the command line (raising on the placeholder), the input and the file |
| LegacyFormatter.LegacyTextFormatter.ExecutionResult | src/formatter.py:156-172 | the result message, with the missing table entry and the extra "\n" |
| LegacyFormatter.LegacyTextFormatter.ComparisonResult | src/formatter.py:174-214 | the older comparison report as written: ValueError for no differences, and TypeError after the error lines wherever the "first lines matched" note is due |
| LegacyFormatter.LegacyTextFormatter.MissingSection | src/formatter.py:228-229 | a "missing section" warning and nothing else |
| LegacyFormatter.LegacyTextFormatter.Dispatch | src/formatter.py:93-229 | each event runs exactly its call's transition |
| Json.TestFilePath | pvcheck/jsonformatter.py:39-44 | the test file lies in the working directory, named as given or "pvcheck.test" |
| Json.JsonMessage | pvcheck/jsonformatter.py:22-32 | the message is "ok" iff the result is ER_OK, otherwise the result text with the fields substituted (see also lines 86-88) |
| Json.NewTest | pvcheck/jsonformatter.py:69-78 | the record shows each argument, the placeholder as "<temp.file>"; the input file name is absent iff there is no temporary file; no execution data yet |
| Json.ExecErrorsShape | pvcheck/jsonformatter.py:91-94 | every regular section is marked "exec_error", each tag once, in order of first appearance |
| Json.WrongLines | pvcheck/jsonformatter.py:102-105 | one entry per position with a positive difference |
| Json.WrongLinesExact | pvcheck/jsonformatter.py:102-105 | exactly the positions with positive difference, ascending, each with the generated line (none past the end) and its match |
| Json.ComparedEntry | pvcheck/jsonformatter.py:98-114 | the status is "ok" iff max(diffs, default 0) is 0; comparing a missing difference raises TypeError exactly when `got` or `matches` is longer than `diffs` |
| Json.OkIffNoWrongLines | pvcheck/jsonformatter.py:99-105 | with non-negative differences a section is "ok" iff it has no wrong line |
| Json.StorePreserves | pvcheck/jsonformatter.py:114 | storing keeps the current map shared with its record and stores the entry under its tag |
| Json.NextHolds | pvcheck/jsonformatter.py:90-96 | every call keeps the current section map the one the last record holds |
| Json.LaterEntryWins | pvcheck/jsonformatter.py:114-118 | a later event for the same tag overwrites the entry; other tags are left alone |
| Json.FailedRunEntries | pvcheck/jsonformatter.py:90-96 | after a failed run every regular section is "exec_error" in the newer formatter and the map is empty in the older |
| Json.GenerationsAgree | src/jsonformatter.py:56-113 | both generations agree on every call but the execution call and `end_test` |
| Json.SuccessfulRunAgrees | src/jsonformatter.py:80-91 | on a successful run both generations start the same empty section map |
| Json.SessionSharesTests | pvcheck/jsonformatter.py:56-78 | the session object lists exactly the tests begun since the session began, in order |
| Json.JsonFormatter.constructor | pvcheck/jsonformatter.py:34-44 | no session, no tests, the test file path built from the working directory |
| Json.JsonFormatter.BeginSession | pvcheck/jsonformatter.py:56-64 | a fresh test list shared by the new session object |
| Json.JsonFormatter.EndSession | pvcheck/jsonformatter.py:66-67 | dumping changes no state |
| Json.JsonFormatter.BeginTest | pvcheck/jsonformatter.py:69-78 | exactly one record appended |
| Json.JsonFormatter.MarkNotRun | pvcheck/jsonformatter.py:91-94 | the loop builds exactly the "exec_error" entries |
| Json.JsonFormatter.ExecutionResult | pvcheck/jsonformatter.py:80-96 | the last record gets return code = status, the formatted message and the output, and a fresh section map (prefilled after a failure in the newer formatter); an empty test list or command line raises IndexError |
| Json.JsonFormatter.Assign | pvcheck/jsonformatter.py:114 | the entry stored under its tag in the map and the record sharing it |
| Json.JsonFormatter.ComparisonResult | pvcheck/jsonformatter.py:98-114 | the compared entry stored under the expected tag, with `wrong_lines` and `difference` = sum(diffs) |
| Json.JsonFormatter.MissingSection | pvcheck/jsonformatter.py:116-118 | {"section status": "missing"} stored under the tag |
| Json.JsonFormatter.Dispatch | src/jsonformatter.py:56-113 | each event runs the transition of the newer or the older formatter |
| Csv.StatusCode | pvcheck/csvformatter.py:17-26 | ER_OUTPUT_LIMIT has no code, and the code is "0" iff the result is ER_OK |
| Csv.StatusCodesDistinct | pvcheck/csvformatter.py:17-26 | different results with a code get different codes |
| Csv.PercentRange | pvcheck/csvformatter.py:120-124 | with differences in [0, 1] the percentage is in [0, 100], and 100 iff no line differs (and for no lines) |
| Csv.HeaderShape | pvcheck/csvformatter.py:41-54 | "TEST" and "CODE" first, each column named once, and exactly those two plus the tests' section names |
| Csv.CellsColumns | pvcheck/csvformatter.py:62-71 | one field per column after "TEST", in header order |
| Csv.RowShape | pvcheck/csvformatter.py:56-71 | a row has header length: title, status code, then each section's equality or "" |
| Csv.StatCellsColumns | pvcheck/csvformatter.py:76-92 | one mean per section column, in header order |
| Csv.StatsShape | pvcheck/csvformatter.py:73-93 | the statistics row has header length: "TOTAL", "", then each section's mean |
| Csv.ColumnValuesInRange | pvcheck/csvformatter.py:78-86 | every value collected for a column is a percentage, MISS counted as 0 |
| Csv.MeanInRange | pvcheck/csvformatter.py:87-92 | every mean over the tests that have the section is a percentage, 0 when none has it |
| Csv.NotRunShape | pvcheck/csvformatter.py:114-116 | after a failed run every regular section reads "0", each tag once, in order of first appearance |
| Csv.HeaderCells | pvcheck/csvformatter.py:98 | the header written as one text cell per column |
| Csv.RowsAt | pvcheck/csvformatter.py:99-101 | one row per test, in order |
| Csv.NextConsistent | pvcheck/csvformatter.py:104-132 | every call keeps the current section map the one the last test holds |
| Csv.RowWidth | pvcheck/csvformatter.py:56-71 | every row is as wide as the header |
| Csv.TableLines | pvcheck/csvformatter.py:95-102 | the header, one line per test in order, then the totals |
| Csv.TableRectangular | pvcheck/csvformatter.py:95-102 | every line of the table is as wide as the header |
| Csv.EndSessionWrites | pvcheck/csvformatter.py:95-102 | `end_session` raises KeyError, writing nothing, exactly when a test has no sections; otherwise it appends the table |
| Csv.OutputLimitBreaksSession | pvcheck/csvformatter.py:111-118 | a run over the output limit raises KeyError before its test gets sections, so the session can no longer be written |
| Csv.ExecutionEntries | pvcheck/csvformatter.py:110-118 | after a failed run every regular section reads "0"; after a successful one the map is empty |
| Csv.ComparisonInRange | pvcheck/csvformatter.py:120-128 | a comparison with differences in [0, 1] keeps every entry a percentage |
| Csv.PutEntries | pvcheck/csvformatter.py:128-132 | after an assignment every entry is the new value or an old entry; an entry under another key is the one the map had at the same place |
| Csv.CsvFormatter.constructor | pvcheck/csvformatter.py:28-31 | no tests and no section map |
| Csv.CsvFormatter.BeginSession | pvcheck/csvformatter.py:38-39 | the test list is emptied |
| Csv.CsvFormatter.BeginTest | pvcheck/csvformatter.py:104-108 | one record holding the title appended |
| Csv.CsvFormatter.AddNames | pvcheck/csvformatter.py:51-53 | appending one test's names keeps the header the first-appearance order of all names so far |
| Csv.CsvFormatter.BuildHeader | pvcheck/csvformatter.py:41-54 | the loop builds exactly the header, or KeyError for a test without sections |
| Csv.CsvFormatter.BuildRow | pvcheck/csvformatter.py:56-71 | the loop builds exactly the row |
| Csv.CsvFormatter.BuildRows | pvcheck/csvformatter.py:99-101 | one row per test |
| Csv.CsvFormatter.CollectValues | pvcheck/csvformatter.py:78-89 | the values of the tests that have the section, MISS as 0 |
| Csv.CsvFormatter.BuildStatsRow | pvcheck/csvformatter.py:73-93 | the loop builds exactly the statistics row |
| Csv.CsvFormatter.EndSession | pvcheck/csvformatter.py:95-102 | header, rows and statistics row appended, or the KeyError |
| Csv.CsvFormatter.MarkNotRun | pvcheck/csvformatter.py:115-116 | the loop builds exactly the "0" entries |
| Csv.CsvFormatter.ExecutionResult | pvcheck/csvformatter.py:110-118 | a fresh map, then the status code (KeyError for an output over the limit), then "0" entries after a failed run |
| Csv.CsvFormatter.Assign | pvcheck/csvformatter.py:128 | the entry stored under its tag in the map and the test sharing it |
| Csv.CsvFormatter.ComparisonResult | pvcheck/csvformatter.py:120-128 | the percent correct stored under the expected tag, 100 for no lines |
| Csv.CsvFormatter.MissingSection | pvcheck/csvformatter.py:130-132 | "MISS" stored under the tag |
| Csv.CsvFormatter.Dispatch | pvcheck/csvformatter.py:38-132 | each event runs exactly its call's transition |
| LegacyCsv.Title | src/csvformatter.py:68 | the title has no newline, has the description's length and keeps every other character |
| LegacyCsv.HeaderOf | src/csvformatter.py:40-45 | raises exactly when there is no test or the first has no sections; otherwise "Test" followed by the first test's section names in order |
| LegacyCsv.CellsColumns | src/csvformatter.py:49-54 | with no column named "Test", one field per column, the similarity or "missing" |
| LegacyCsv.CellsFrom | src/csvformatter.py:49-54 | the "Test" column contributes no field |
| LegacyCsv.CellsAfterHead | src/csvformatter.py:50 | skipping the leading "Test" changes nothing |
| LegacyCsv.RowShape | src/csvformatter.py:47-55 | a row is as wide as the header: the title, then per section its similarity or "missing" |
| LegacyCsv.RowsAt | src/csvformatter.py:61-63 | one row per test, in order |
| LegacyCsv.EndSessionWrites | src/csvformatter.py:57-63 | raises exactly when there is no test or the first never ran; otherwise the header and one row per test are written |
| LegacyCsv.LegacyNextHolds | src/csvformatter.py:37-88 | every call keeps the current section map the one its test holds |
| LegacyCsv.FreshTest | src/csvformatter.py:65-75 | after `begin_test` and `execution_result` the new test, with its one-line title, holds an empty map and the count is 0 |
| LegacyCsv.ComparisonStores | src/csvformatter.py:77-84 | the similarity 100 minus the differences stored under the tag with the current number, the count up by one, other entries unchanged |
| LegacyCsv.ComparisonsNumbered | src/csvformatter.py:77-84 | two comparisons of different sections are both stored, numbered consecutively |
| LegacyCsv.MissingShowsLiteral | src/csvformatter.py:86-88 | as written, a missing section reads "missing" in a column named "expected.tag" and leaves its own column as it was |
| LegacyCsv.MissingShowsMissing | src/csvformatter.py:54-88 | the corrected half: a missing section stored under its tag reads "missing" in its column |
| LegacyCsv.MissingKeyCounterexample | src/csvformatter.py:86-88 | as written two missing sections leave one entry under the literal key "expected.tag" and none under their tags; under their tags each has its own entry |
| LegacyCsv.LegacyCsvFormatter.constructor | src/csvformatter.py:26-30 | no tests, no map, count 0, nothing written |
| LegacyCsv.LegacyCsvFormatter.BeginSession | src/csvformatter.py:37-38 | the test list is emptied |
| LegacyCsv.LegacyCsvFormatter.BeginTest | src/csvformatter.py:65-70 | the count restarts and a test with the one-line title is appended; a `None` description raises |
| LegacyCsv.LegacyCsvFormatter.BuildRow | src/csvformatter.py:47-55 | the loop builds exactly the row |
| LegacyCsv.LegacyCsvFormatter.BuildRows | src/csvformatter.py:61-63 | the loop builds one row per test |
| LegacyCsv.LegacyCsvFormatter.EndSession | src/csvformatter.py:57-63 | header and rows written, or the error |
| LegacyCsv.LegacyCsvFormatter.ExecutionResult | src/csvformatter.py:72-75 | the last test and the formatter share a fresh empty map |
| LegacyCsv.LegacyCsvFormatter.Assign | src/csvformatter.py:84 | the entry stored under its tag in the map and in the test sharing it |
| LegacyCsv.LegacyCsvFormatter.ComparisonResult | src/csvformatter.py:77-84 | the comparison's transition |
| LegacyCsv.LegacyCsvFormatter.MissingSection | src/csvformatter.py:86-88 | as written: the missing status stored under the literal key "expected.tag", or AttributeError before any execution result |
| LegacyCsv.LegacyCsvFormatter.Dispatch | src/csvformatter.py:37-88 | each event runs exactly its call's transition |
| Html.EscapeChar | pvcheck/htmlformatter.py:8-9 | a character is replaced exactly when it is one of the six in the translation table |
| Html.UnescapeStep | pvcheck/htmlformatter.py:8 | every replacement can be read back as its character |
| Html.EscapeRoundTrip | pvcheck/htmlformatter.py:8-9 | escaping loses nothing: reading the entities back gives the original text |
| Html.EscapeAngles | pvcheck/htmlformatter.py:8-9 | after escaping, `<` and `>` appear exactly when the text had a line break |
| Html.SectionStatus | pvcheck/jsonformatter.py:93-117 | the stored status is "ok" iff the section was compared without differences, "error" iff compared with some |
| Html.StatusColors | pvcheck/htmlformatter.py:173-186 | green iff "ok", red iff "error" or (newer only) "exec_error", orange iff "missing"; the text is the status except "execution failed" |
| Html.StatusGenerations | src/htmlformatter.py:118-127 | the two generations show a cell alike exactly when the status is not "exec_error" |
| Html.NamesSnoc | pvcheck/htmlformatter.py:127-131 | the header grows by one test's names at a time, and only over executed tests |
| Html.HeaderShape | pvcheck/htmlformatter.py:122-132 | no name twice, exactly "TEST" (for several tests) and the section names, "TEST" first and only there |
| Html.HeaderFails | pvcheck/htmlformatter.py:128 | building the header raises exactly when some test has no sections |
| Html.Somes | pvcheck/htmlformatter.py:159 | every status cell is present |
| Html.SomesSnoc | pvcheck/htmlformatter.py:156-161 | statuses are collected one column at a time |
| Html.RowCellsColumns | pvcheck/htmlformatter.py:156-161 | one status per column, "" for a section the test lacks |
| Html.RowCellsFrom | pvcheck/htmlformatter.py:156-161 | the cells of two runs of columns are the cells of each, joined |
| Html.RowCellsAfterHead | pvcheck/htmlformatter.py:157 | the "TEST" column contributes no cell |
| Html.RowColumnsMany | pvcheck/htmlformatter.py:151-162 | with "TEST" first, the row is the title then one status per column |
| Html.RowColumnsSingle | pvcheck/htmlformatter.py:151-162 | without "TEST", the row is one status per column |
| Html.RowShape | pvcheck/htmlformatter.py:151-162 | a row has header width: the title under "TEST" (several tests only), then the status of each section or "" |
| Html.Bump | pvcheck/htmlformatter.py:246-263 | counting a section moves exactly one counter by one: "ok" the successes, "error" (and, in the newer generation, "exec_error") the errors, any other status the warnings; the other two stay (older generation: src/htmlformatter.py:176-208) |
| Html.BumpGenerations | src/htmlformatter.py:179-204 | the generations count a section alike exactly when it is not "exec_error" |
| Html.Reset | pvcheck/htmlformatter.py:19-22 | every column but "TEST" is zeroed, the totals and other sections are kept |
| Html.EscapeAll | pvcheck/htmlformatter.py:136-137 | every header cell escaped, in order |
| Html.ShowAll | pvcheck/htmlformatter.py:169-170 | every status shown, in order |
| Html.ShowAllSnoc | pvcheck/htmlformatter.py:169-170 | statuses are shown one at a time |
| Html.RowBlocks | pvcheck/htmlformatter.py:140-149 | only row blocks are printed, and they all print exactly when, with several tests, every test has a title |
| Html.JoinSnoc | pvcheck/htmlformatter.py:228-229 | appending one argument adds a space and the argument |
| Html.CommandTextJoin | pvcheck/htmlformatter.py:225-230 | the command line is a leading space and the arguments joined by spaces, "" for none |
| Html.WrongLineMentionsBoth | pvcheck/htmlformatter.py:277-279 | a wrong line's message shows the expected and the generated text |
| Html.WrongLineMentions | pvcheck/htmlformatter.py:271-281 | every message shows the expected text when there is one (except the older missing-line message, which shows the number as written at src/htmlformatter.py:195), the generated text when both are there, and otherwise the line number |
| Html.LegacyMissingLineMentions | src/htmlformatter.py:194-195 | the corrected older missing-line message shows the expected text |
| Html.MissingLineCounterexample | src/htmlformatter.py:194-195 | as written the older page reports the missing line "x" of line 1 as "riga mancante (atteso '1')", without its text; corrected it shows "x" |
| Html.WrongLineBlocks | pvcheck/htmlformatter.py:254-255 | one red status line per wrong line, in order |
| Html.SectionInfo | pvcheck/htmlformatter.py:246-263 | printing a section never adds or removes a counted column |
| Html.SectionsInfo | pvcheck/htmlformatter.py:215-217 | printing the sections of a test never adds or removes a counted column |
| Html.TestInfo | pvcheck/htmlformatter.py:206-218 | printing a test never adds or removes a counted column |
| Html.TestsInfo | pvcheck/htmlformatter.py:194-196 | printing all tests never adds or removes a counted column |
| Html.SummaryRows | pvcheck/htmlformatter.py:295-302 | one row per column but "TEST", each showing that column's counters |
| Html.AfterHeaderEnds | pvcheck/htmlformatter.py:24-29 | normally the counters are those of printing every test; `exit(0)` happens exactly when the first test's execution failed, after the error message and the page end, counting nothing and printing no summary (see also lines 188-204) |
| Html.Information | pvcheck/htmlformatter.py:188-204 | the same for the information and summary pages once the top is printed (see also lines 295-303) |
| Html.SectionsInfoSucceeds | pvcheck/htmlformatter.py:215-247 | a test's sections print without raising exactly when it has every column |
| Html.SectionsInfoTally | pvcheck/htmlformatter.py:246-263 | each column is counted once, and once in the totals; other sections unchanged |
| Html.TestsInfoSucceeds | pvcheck/htmlformatter.py:194-196 | the details print without raising exactly when every test is ready |
| Html.TestsInfoTally | pvcheck/htmlformatter.py:194-196 | `n` tests add `n` to every column's counters and `n` per column to the totals |
| Html.EndSessionExit | pvcheck/htmlformatter.py:17-29 | the page ends in `exit(0)` exactly when header and rows print and the first test failed; then the counters are only zeroed, no summary is printed, the error message and the page end are (see also lines 191-193) |
| Html.EndSessionSucceeds | pvcheck/htmlformatter.py:17-29 | a session ends normally exactly when every test ran, the first successfully, and every test is ready to print |
| Html.EndSessionCounts | pvcheck/htmlformatter.py:17-29 | after a normal end every column has counted each test once, its successes are the tests whose status there is "ok", its errors those with "error" (newer: or "exec_error"), its warnings the rest; the totals grow by one per test and column, other sections unchanged (see also lines 246-263) |
| Html.SectionsInfoBumps | pvcheck/htmlformatter.py:246-263 | printing one test's sections moves, in every column, the counter its status names, and changes nothing else |
| Html.TestsInfoColumns | pvcheck/htmlformatter.py:194-196 | printing the tests' details counts, per column, the tests' statuses: one success per "ok", one error per "error" (newer: and "exec_error"), one warning per other status |
| Html.TalliesSnoc | pvcheck/htmlformatter.py:246-263 | one more counted status keeps the counters equal to the status counts |
| Html.RowBlocksStuck | pvcheck/htmlformatter.py:147-149 | once a row raises, the later tests print nothing |
| Html.SectionsInfoStuck | pvcheck/htmlformatter.py:215-217 | once a section raises, the later sections print nothing |
| Html.TestsInfoStuck | pvcheck/htmlformatter.py:195-196 | once a test raises, the later tests print nothing |
| Html.Summary.constructor | pvcheck/htmlformatter.py:11-12 | no section counters, totals zero |
| Html.Summary.ResetFor | pvcheck/htmlformatter.py:19-22 | the counters become those of the reset |
| Html.Summary.Count | pvcheck/htmlformatter.py:246-263 | the section's and the total counters bumped by the status |
| Html.HtmlFormatter.constructor | pvcheck/htmlformatter.py:15 | the JSON formatter it extends, the module counters, the generation, nothing printed |
| Html.HtmlFormatter.AddNames | pvcheck/htmlformatter.py:129-131 | adding names keeps the header the first-appearance order of all names |
| Html.HtmlFormatter.BuildHeader | pvcheck/htmlformatter.py:122-132 | the loop builds exactly the header, or the error |
| Html.HtmlFormatter.StartHeader | pvcheck/htmlformatter.py:123-126 | "TEST" for several tests, nothing otherwise |
| Html.HtmlFormatter.BuildRow | pvcheck/htmlformatter.py:151-162 | the loop builds exactly the row |
| Html.HtmlFormatter.ShowCells | pvcheck/htmlformatter.py:169-170 | the loop shows exactly every status |
| Html.HtmlFormatter.PrintRow | pvcheck/htmlformatter.py:148-171 | exactly the row's block, or the error |
| Html.HtmlFormatter.PrintRows | pvcheck/htmlformatter.py:140-149 | exactly the rows printed up to the first error |
| Html.HtmlFormatter.CommandLineText | pvcheck/htmlformatter.py:226-229 | the loop builds exactly the command line |
| Html.HtmlFormatter.PrintSections | pvcheck/htmlformatter.py:215-217 | exactly the sections' blocks and counters |
| Html.HtmlFormatter.PrintTest | pvcheck/htmlformatter.py:206-218 | exactly the test's blocks and counters |
| Html.HtmlFormatter.PrintTests | pvcheck/htmlformatter.py:194-196 | exactly the tests' blocks and counters, up to the first error |
| Html.HtmlFormatter.PrintSummary | pvcheck/htmlformatter.py:295-303 | exactly the summary table |
| Html.HtmlFormatter.PrintInformation | pvcheck/htmlformatter.py:26-27 | the information and summary pages, counters and stop |
| Html.HtmlFormatter.PrintAfterHeader | pvcheck/htmlformatter.py:24-29 | what follows the header build, counters and stop |
| Html.HtmlFormatter.EndSession | pvcheck/htmlformatter.py:17-29 | the page appended, the counters and the exception or exit |
| Html.HtmlFormatter.Dispatch | pvcheck/htmlformatter.py:15-29 | `end_session` prints the page; every other call is the JSON formatter's of the same generation, printing nothing |
| Interactive.Cut | pvcheck/interactiveformatter.py:483 | the pad keeps a prefix of the line, of length the smaller of the line's and the width |
| Interactive.Scrolled | pvcheck/interactiveformatter.py:486-489 | the new first line is within [0, max(0, length - h)], and exactly the requested one when that is in range |
| Interactive.ScrollHome | pvcheck/interactiveformatter.py:182-185 | HOME returns to the first line from anywhere in the document (see also lines 486-489) |
| Interactive.ScrollEnd | pvcheck/interactiveformatter.py:187-190 | END shows the last page, or the top when the document fits (see also lines 486-489) |
| Interactive.ScrollBack | pvcheck/interactiveformatter.py:162-170 | one line down then one up returns to the start, away from the end (see also lines 486-489) |
| Interactive.Report.constructor | pvcheck/interactiveformatter.py:465-478 | a report with the title and width, no lines, at the top, no output (also src/interactiveformatter.py:69-78) |
| Interactive.Report.AddLine | pvcheck/interactiveformatter.py:480-484 | one more line, the cut text, at the bottom; length up by exactly one; position and output unchanged (also src/interactiveformatter.py:80-84) |
| Interactive.Report.Scroll | pvcheck/interactiveformatter.py:486-489 | the position becomes the clamped request, within [0, max(0, length - h)]; the lines unchanged (also src/interactiveformatter.py:86-89) |
| Interactive.Shown | pvcheck/interactiveformatter.py:495-505 | with `top` = position + 1 and `bottom` = min(position + h, length): a full page when the document is a page long, the whole document otherwise (also src/interactiveformatter.py:95-105) |
| Interactive.TotalsFree | pvcheck/interactiveformatter.py:150-156 | the per-section registration does not depend on the totals |
| Interactive.RegisterAdds | pvcheck/interactiveformatter.py:405-410 | a section is registered once, with three zero counters; a known section changes nothing; other counters and the totals unchanged |
| Interactive.CountComparison | pvcheck/interactiveformatter.py:417-422 | counting a verdict keeps the registration |
| Interactive.CountMissing | pvcheck/interactiveformatter.py:453-455 | counting a missing section keeps the registration |
| Interactive.SumOverOther | pvcheck/interactiveformatter.py:405-410 | changing an unregistered section leaves the per-section sum unchanged |
| Interactive.SumOverBump | pvcheck/interactiveformatter.py:419-455 | one more on a registered section adds one to the per-section sum |
| Interactive.SumOverAppend | pvcheck/interactiveformatter.py:405-410 | a new section with 0 leaves the per-section sum unchanged |
| Interactive.RegisterTallied | pvcheck/interactiveformatter.py:405-410 | registering keeps the totals tallied against the per-section sums |
| Interactive.VerdictCounted | pvcheck/interactiveformatter.py:413-422 | the section registered, and exactly one of pass and error moves by one, in total and for the section; everything else unchanged |
| Interactive.MissingCounted | pvcheck/interactiveformatter.py:451-455 | the section registered, one more warning in total and for the section, everything else unchanged |
| Interactive.ComparisonTallied | pvcheck/interactiveformatter.py:417-422 | counting a verdict keeps the totals tallied |
| Interactive.MissingTallied | pvcheck/interactiveformatter.py:397-455 | a missing section keeps the totals tallied; a failed run adds only to the error total |
| Interactive.AddAll | pvcheck/interactiveformatter.py:480-484 | several lines added in order: the pad grows by them, each cut, nothing else changes |
| Interactive.AddOne | pvcheck/interactiveformatter.py:480-484 | one line through the batch is one `add_line` |
| Interactive.AddTwo | pvcheck/interactiveformatter.py:480-484 | two lines through the batch are two `add_line`s in order |
| Interactive.Errors | pvcheck/interactiveformatter.py:400-401 | one red line per text, in order |
| Interactive.PyIndex | pvcheck/interactiveformatter.py:164 | a list index is valid exactly for -n <= i < n, and lands inside the list (see also line 401) |
| Interactive.ResultText | pvcheck/interactiveformatter.py:134-141 | there is a message exactly when the run did not end regularly (see also lines 393-399) |
| Interactive.MessageLines | pvcheck/interactiveformatter.py:397-401 | no lines for a regular exit, otherwise one red, non-bold line per line of the message |
| Interactive.Passes | pvcheck/interactiveformatter.py:415 | a comparison passes exactly when no difference is positive (`max(diffs, default=0) <= 0`) |
| Interactive.NextKeepsRegistered | pvcheck/interactiveformatter.py:362-458 | every call keeps each registered section's counters |
| Interactive.ComparisonCounts | pvcheck/interactiveformatter.py:412-448 | with no report, IndexError and no change; otherwise the verdict counted as `VerdictCounted` says, and the call raises AttributeError exactly when `diffs` is non-empty |
| Interactive.ComparisonHeading | pvcheck/interactiveformatter.py:423-448 | the heading `[tag]`, bold, green iff the comparison passes, then a blank line only when there is no difference |
| Interactive.MissingCounts | pvcheck/interactiveformatter.py:451-459 | one more warning in total and for the section; IndexError exactly when there is no report; otherwise the yellow note and a blank line on the last report |
| Interactive.ExecutionCounts | pvcheck/interactiveformatter.py:390-403 | a failed run counts one error and nothing else; IndexError exactly for no arguments or no report; the index and the number of reports kept |
| Interactive.RunCounts | pvcheck/interactiveformatter.py:396-403 | a message counts one error; IndexError exactly when there is no report |
| Interactive.ExecutionLines | pvcheck/interactiveformatter.py:396-402 | the last report gets one red line per line of the failure message after its old lines, and the output; the other reports unchanged |
| Interactive.RunLines | pvcheck/interactiveformatter.py:398-402 | the same for a chosen message |
| Interactive.SessionResets | pvcheck/interactiveformatter.py:260-264 | totals zero, per-section counters kept, running, the waiting page on screen (see also lines 362-369) |
| Interactive.Navigation | pvcheck/interactiveformatter.py:196-207 | RIGHT moves to the next report and stops at the last; LEFT moves back but never to the waiting page once a test report exists |
| Interactive.ScrollKeeps | pvcheck/interactiveformatter.py:162-190 | the scrolling keys move only the report on screen, within its bounds |
| Interactive.Run | pvcheck/interactiveformatter.py:362-458 | a run of calls keeps the registration |
| Interactive.NextTallied | pvcheck/interactiveformatter.py:378-458 | every call but `begin_session` keeps the totals tallied against the per-section counters |
| Interactive.NextShowing | pvcheck/interactiveformatter.py:378-384 | every call but `begin_session` keeps the reports and the screen on a report, off the waiting page once a test began |
| Interactive.SessionKeeps | pvcheck/interactiveformatter.py:378-458 | within a session the totals stay tallied and a test report stays on screen |
| Interactive.SessionStart | pvcheck/interactiveformatter.py:143-156 | a fresh formatter's session starts tallied, on the waiting page (see also lines 362-369) |
| Interactive.MissingNoteUnclosed | pvcheck/interactiveformatter.py:428 | the note as written ends on the quote; the intended note adds the closing parenthesis |
| Interactive.DiffLine | pvcheck/interactiveformatter.py:430-447 | raises exactly for a positive difference past `matches`; green iff the difference is not positive, red otherwise with a note closed by a parenthesis that shows the expected line |
| Interactive.DiffLinesShape | pvcheck/interactiveformatter.py:430-447 | one line per difference, green exactly for non-positive ones, showing the received line; failing exactly when `matches` is too short |
| Interactive.UndefinedHelperCounterexample | pvcheck/interactiveformatter.py:432 | as written a fully correct comparison stops at the undefined helper after the heading; intended, one green line follows |
| Interactive.AddLines | pvcheck/interactiveformatter.py:400-401 | the report's view is exactly the batch of lines added |
| Interactive.InteractiveFormatter.constructor | pvcheck/interactiveformatter.py:143-156 | no reports, index 0, no sections, every counter zero |
| Interactive.InteractiveFormatter.BeginSession | pvcheck/interactiveformatter.py:362-369 | totals zero, running, the waiting page appended and shown |
| Interactive.InteractiveFormatter.EndSession | pvcheck/interactiveformatter.py:371-376 | no longer running, nothing else changes |
| Interactive.InteractiveFormatter.BeginTest | pvcheck/interactiveformatter.py:378-384 | a report titled by the description (or "") appended, the index moved from 0 to 1 |
| Interactive.InteractiveFormatter.WriteLast | pvcheck/interactiveformatter.py:400-402 | lines added to the last report and its output replaced |
| Interactive.InteractiveFormatter.ExecutionResult | pvcheck/interactiveformatter.py:390-403 | the execution's transition |
| Interactive.InteractiveFormatter.Record | pvcheck/interactiveformatter.py:397-402 | the transition once the message is chosen |
| Interactive.InteractiveFormatter.NewSection | pvcheck/interactiveformatter.py:405-410 | the section registered, the reports unchanged |
| Interactive.InteractiveFormatter.TallyComparison | pvcheck/interactiveformatter.py:416-422 | the section registered, then one pass or one error |
| Interactive.InteractiveFormatter.TallyMissing | pvcheck/interactiveformatter.py:453-455 | the section registered, then one more warning |
| Interactive.InteractiveFormatter.TallyError | pvcheck/interactiveformatter.py:398 | one more error in total, nothing else |
| Interactive.InteractiveFormatter.ComparisonResult | pvcheck/interactiveformatter.py:412-449 | the comparison's transition as written |
| Interactive.InteractiveFormatter.MissingSection | pvcheck/interactiveformatter.py:451-459 | the missing section's transition |
| Interactive.InteractiveFormatter.Dispatch | pvcheck/interactiveformatter.py:362-459 | each event runs exactly its call's transition |
| Interactive.InteractiveFormatter.NextReport | pvcheck/interactiveformatter.py:203-207 | the index moves to min(index + 1, count - 1) |
| Interactive.InteractiveFormatter.PreviousReport | pvcheck/interactiveformatter.py:196-201 | with more than one report, the index moves to max(index - 1, 1) |
| Interactive.InteractiveFormatter.ScrollReport | pvcheck/interactiveformatter.py:162-190 | the report on screen scrolled, or IndexError |
| Exporter.FileName | pvcheck/exporter.py:17-23 | "NoName.dat" for a missing description; otherwise the description with spaces turned to underscores, then ".dat"; never a space (also src/exporter.py:16-21) |
| Exporter.SectionData | pvcheck/exporter.py:33-34 | nothing exactly when the test has no section with the tag; otherwise that section's content as text |
| Exporter.GetData | pvcheck/exporter.py:26-35 | the `.INPUT` and `.FILE` contents, each missing exactly when the test lacks that section |
| Exporter.Written | pvcheck/exporter.py:38-43 | the input then the file content, each only when present (also src/exporter.py:30-35) |
| Exporter.Export | pvcheck/exporter.py:4-50 | exit code 0 exactly when the test has `.INPUT` or `.FILE`, writing the file named from the description and printing nothing; otherwise exit 1, no file, the numbered error message |
| Exporter.ExportedSections | pvcheck/exporter.py:7-43 | the file holds exactly the input followed by the file content |
| Exporter.FileNameCollides | pvcheck/exporter.py:20 | descriptions that differ only by spaces against underscores give the same file name |
| I18n.Translated | pvcheck/i18n.py:26-39 | a catalog key gives its translation; otherwise the text minus its last character, translated, plus that character; nothing exactly when neither is a key |
| I18n.Identity | pvcheck/i18n.py:203 | the English table maps each key of a catalog to itself |
| I18n.OnInstall | pvcheck/i18n.py:192-204 | the language is the part of LANG before '_' when it has a catalog, otherwise "en"; the missing set is kept |
| I18n.IdentityTranslates | pvcheck/i18n.py:26-39 | with the English table a translation is the text itself or missing (see also lines 199-203) |
| I18n.UnknownLanguageIsIdentity | pvcheck/i18n.py:196-204 | a language without a catalog falls back to "en", where every text translates to itself and catalog keys are not recorded as missing |
| I18n.RegisteredIsTranslated | pvcheck/i18n.py:46-49 | a text registered for the current language then translates to its translation |
| I18n.RegisteredElsewhere | pvcheck/i18n.py:46-51 | a text registered for another language translates to itself under "en" and changes nothing otherwise |
| I18n.TranslateMissing | pvcheck/i18n.py:26-39 | translating changes only the missing set, and only by the text itself when it is returned untranslated; a key changes nothing |
| I18n.Translator.constructor | pvcheck/i18n.py:58-60 | the module's state after the import-time install (see also line 207) |
| I18n.Translator.InstallLang | pvcheck/i18n.py:192-204 | the install's transition |
| I18n.Translator.Translate | pvcheck/i18n.py:26-39 | the translation and the new missing set |
| I18n.Translator.RegisterTranslation | pvcheck/i18n.py:46-51 | the table gains the translation for the current language, the identity under "en", nothing otherwise |
| LegacyI18n.ParseLineShape | src/i18n.py:140-142 | a catalog line splits at its first '$' into the stripped key and the stripped translation; a line without '$' gives the stripped line and "" |
| LegacyI18n.Parsed | src/i18n.py:140-141 | one pair per catalog line, in order |
| LegacyI18n.DictKeys | src/i18n.py:140 | a key is in the table built from pairs exactly when some pair has it |
| LegacyI18n.DictLast | src/i18n.py:140 | a key takes the value of its last pair |
| LegacyI18n.CatalogEntries | src/i18n.py:139-142 | a catalog key is translated by its last line |
| LegacyI18n.CatalogMisses | src/i18n.py:139-142 | a text on no catalog line is not a key |
| LegacyI18n.TableKeepsBase | src/i18n.py:133-142 | the usage and help entries survive the update unless a catalog line redefines them |
| LegacyI18n.OnTranslate | src/i18n.py:23-31 | a key gives its translation and changes nothing; otherwise the text is returned and recorded as missing |
| LegacyI18n.NoRetry | src/i18n.py:23-31 | unlike the newer generation, a text with one extra last character is not retried without it |
| LegacyI18n.Unseparated | src/i18n.py:140-142 | a line without '$' becomes a key translated by "" |
| LegacyI18n.GotLineAsWritten | src/i18n.py:104 | as written the line has no '$', so the whole line becomes a key translated by "" and ", got '%s')" is no key |
| LegacyI18n.ParseAt | src/i18n.py:140-142 | a line with its first '$' between `a` and `b` gives the stripped `a` and `b` |
| LegacyI18n.Separated | src/i18n.py:140-142 | padding around the '$' is stripped from key and translation |
| LegacyI18n.GotLineCorrected | src/i18n.py:104 | with '$' in place of `":` the line translates ", got '%s')" to "ottenuto '%s')" |
| LegacyI18n.LegacyTranslator.constructor | src/i18n.py:133-163 | the Italian table built from the base entries and the catalog, then the import-time install |
| LegacyI18n.LegacyTranslator.InstallLang | src/i18n.py:149-161 | the install's transition, as in the newer generation |
| LegacyI18n.LegacyTranslator.Translate | src/i18n.py:23-31 | the translation and the new missing set |

## Left out

- Process spawning, pipes, kill/wait, temporary-file creation and removal, and output decoding are not modelled (src/executor.py:24-35, 69-96). The spawn is a function parameter giving the finished process's outcome. `Executor.ExecProcess` models what happens after the process ends: classifying the result and truncating the output. The orchestrators take the whole executor as a function parameter.
- Match.CompareElements: float parsing and `round()` in the fractional-token check are a parameter `roundEq`, so the model holds for any rounding rule rather than Python's.
- Csv.CsvFormatter.ComparisonResult: the `'%.2f'` text of percentages and means is kept as the real value it formats. Float rounding in the means is not modelled.
- `str.split()`, `strip()` and `splitlines()` are approximated over ASCII whitespace and `'\n'`. The Unicode whitespace set and the other line terminators are not modelled. Likewise `int()` is modelled over ASCII digits only; the other Unicode decimal digits it accepts are not. The regular-expression `\w` of the header pattern is approximated as ASCII letters, digits and `_`.
- Curses drawing is not modelled. This covers the footer and its counters line, the pads' on-screen refresh and the "h", "i", "o" and "s" information pages (pvcheck/interactiveformatter.py:209-358).
- The UI thread, its mutex and its barrier are not modelled (pvcheck/interactiveformatter.py:115-121, 246-271, 362-376; src/interactiveformatter.py:38-63).
- Interactive.InteractiveFormatter.ScrollReport: the terminal's text height is a parameter `h`, not read from the screen.
- Interactive.InteractiveFormatter.EndSession: only the `running` flag is modelled, not the thread join.
- The footer reads `_err_count`, while the constructor sets `_error_count`. Since the footer is not modelled, that mismatch is not either.
- `json.dump`, `csv.writer`, `print`, timestamps and the working directory are not modelled. The formatters produce records, table cells, text lines or printed blocks. The session timestamp is a parameter.
- Html.HtmlFormatter.EndSession: the page is a sequence of blocks (row, status line, summary row, error message, rule, page end). The HTML markup and the style sheet are not modelled.
- The CSV writer writes a `None` title as an empty field. The model writes it as "".
- LegacyCsv.RowShape: the older similarity `100 - sum(diffs)` is the int 100 for an empty `diffs`, which the CSV writer writes as "100" rather than "100.0"; the model's real-valued cell does not tell the two apart.
- The command-line parsers are not modelled (pvcheck/argparser.py, src/argparser.py).
- The entry points are not modelled (pvcheck/main.py, src/app.py).
- The external word-diff wrapper is not modelled (pvcheck/wdiff.py).
- The dead Valgrind module of the older generation is not modelled (src/valgrind.py).
- The doctest runners are not modelled (test/runtests.py, src/runtests.py).
- The example C programs are not modelled.
- The help and usage messages are not modelled, nor the contents of the translation tables beyond the catalog lines they are built from.
- The i18n `atexit` dump of missing translations and the warnings printed for them are not modelled. Only the update to the missing set is kept.
- Formatters call `_()` on their messages. That translation is taken as the identity, which is what an English or unknown `LANG` gives on catalog keys.
- Formatter.TextFormatter.constructor: starts with an empty result list, where the source creates `_sect_results` only in `begin_session` (pvcheck/formatter.py:167-170); a comparison, missing section or `end_test` before `begin_session`, which raises AttributeError in the source, is not modelled.
- `ColoredTextFormatter` (pvcheck/formatter.py:319-347) is not modelled: it is the text formatter with colour escape codes around each message, which the model of `TextFormatter` leaves out.
- Formatter.ExecutionLines: when the program name in a result message is the temporary-file placeholder, it is rendered as "<object object>"; the run-time address in Python's "<object object at 0x...>" is dropped.
- I18n.Translator.InstallLang: the table of a known language is copied, where `_strings = _translations[_lang]` (pvcheck/i18n.py:196-197) shares it, so a later `register_translation` also changes `_translations[_lang]`. That shows only if the install runs again, which the source does not do (it runs once, at import); a second install is not modelled. The same holds for LegacyI18n.LegacyTranslator.InstallLang.
- Formatter.CombinedFormatter.constructor: combines text formatters only; the source forwards to formatters of any class, whose own steps are modelled by their own `Dispatch`.
- Executor.ExecProcess: with no temporary file, a leftover temporary-file placeholder in the arguments reaches the spawn, where `Popen` raises TypeError (src/executor.py:70-78); the spawn is an unconstrained parameter, so the model does not force that error.
- The formatter seen by the orchestrators is the list of calls they make (`Events.Event`). Each formatter has its own `Dispatch` that runs one such call.
- PvCheck.Checker.ExecSuite: the trace and the failure count assume that no formatter call raises. In the source a raising `begin_test`, `execution_result`, `comparison_result`, `missing_section` or `end_test` leaves the loop at once (pvcheck/pvcheck.py:27-34); only `end_session` still runs, from `finally`, and the exception takes the place of the count. Formatters that do raise on ordinary runs are the interactive one at any comparison with a non-empty `diffs` list (`Interactive.ComparisonCounts`) and the CSV one on an `ER_OUTPUT_LIMIT` run (`Csv.OutputLimitBreaksSession`).
- PvCheck.Checker.ExecSingleTest: likewise, a raising formatter call stops the run (pvcheck/pvcheck.py:42-50); `end_test` and `end_session` still run from `finally` and the exception replaces the verdict. The model assumes no formatter call raises.
- LegacyPvCheck.LegacyChecker.ExecSuite: likewise, a raising formatter call, such as the older CSV `begin_test` on the unnamed case of a suite without `.TEST` (`LegacyCsv.LegacyCsvFormatter.BeginTest`), ends the loop with only `end_session` after it (src/pvcheck.py:20-27). The model assumes no formatter call raises.
- LegacyPvCheck.LegacyChecker.ExecSingleTest: likewise, a raising formatter call ends the run with only `end_session` after it (src/pvcheck.py:29-35). The model assumes no formatter call raises.
- Exporter.Export: models pvcheck/exporter.py only. src/exporter.py runs the same steps, but its `_get_data` calls `find_section_content`, which the older `TestCase` (src/testdata.py:20-30) does not define, so on that generation's test data `export` raises `AttributeError`; that failure is not modelled.
- Exporter.GetData: likewise models pvcheck/exporter.py only; on the older `TestCase` the call at src/exporter.py:25 raises `AttributeError`, which is not modelled.
- LegacyPvCheck: `src/pvcheck.py` calls `find_section_content`, `sections()` and `section_options`, which only the newer `TestCase` defines. The older orchestrator is therefore modelled over the newer test data.
- Behaviours the model keeps as the code has them:
  - On a timeout the code discards the partial output (src/executor.py:73-75, 86-92).
  - A spawn error other than a missing file propagates, rather than counting as "not found" (src/executor.py:93-94).
  - The CSV status table has no `ER_OUTPUT_LIMIT` entry, so such a run raises `KeyError`. See `Csv.OutputLimitBreaksSession`.
  - The interactive failure message for a missing file lacks its opening parenthesis. It is kept as written.

## Findings

| source | as written | input that shows it | evidently intended | confidence | as-written member | corrected member |
|---|---|---|---|---|---|---|
| pvcheck/formatter.py:146 | `fatal` calls `self._message`, which no class defines, so it raises `AttributeError` | any call of `fatal` | write the text at the fatal level through `message` | high; not executed | Formatter.TextFormatter.Fatal | Formatter.TextFormatter.FatalMessage |
| src/formatter.py:208 | `min(len(got.content))` applies `min` to an int, which raises `TypeError` | expected lines ["a", "b"], got ["a"], diffs [0.0, 1.0] | the note "The first 1 lines matched correctly" | high; not executed | LegacyFormatter.MatchedNoteAsWritten, LegacyFormatter.MatchedNoteCounterexample | Formatter.FirstMatched, LegacyFormatter.MatchedNoteRaises |
| pvcheck/pvcheck.py:62 | the comprehension names `executor`, which the module never imports, so it raises `NameError` on the first ".FILE" argument | a test with a `.FILE` section and a `.ARGS` line ".FILE" | replace each ".FILE" argument by the temporary-file placeholder | high; not executed | PvCheck.BuildArgsRaises | PvCheck.IntendedArgsShape |
| src/csvformatter.py:88 | every missing section is stored under the literal key "expected.tag" | two different missing sections in one test | store the entry under the section's tag | high; not executed | LegacyCsv.MissingShowsLiteral, LegacyCsv.MissingKeyCounterexample | LegacyCsv.MissingShowsMissing, LegacyCsv.MissingKeyCounterexample |
| src/htmlformatter.py:195 | the missing-line message formats the line number where the expected text belongs | the missing line "x" at line 1 reads "riga mancante (atteso '1')" | "riga mancante (atteso 'x')" | high; not executed | Html.WrongLineMentions, Html.MissingLineCounterexample | Html.LegacyMissingLineMentions, Html.MissingLineCounterexample |
| pvcheck/interactiveformatter.py:432 | `pvcheck.formatter.handle_non_printable_chars` is not defined, so any comparison with a non-empty `diffs` list, correct lines included, raises `AttributeError` after the heading | section "x" expected ["1"], got ["1"], diffs [0.0] | one green line "1" per correct line, then the difference notes | high; not executed | Interactive.OnComparison, Interactive.UndefinedHelperCounterexample | Interactive.DiffLines, Interactive.DiffLinesShape |
| pvcheck/interactiveformatter.py:428 | the missing-line note opens a parenthesis that it never closes | any missing line | the note ends with ")", as the other two do | medium; not executed | Interactive.MissingNoteAsWritten, Interactive.MissingNoteUnclosed | Interactive.MissingNote, Interactive.DiffLine |
| src/i18n.py:104 | the catalog line has `":` where `$` belongs, so it becomes a key with an empty translation | translating ", got '%s')" | ", got '%s')" translated to "ottenuto '%s')" | high; not executed | LegacyI18n.GotLineAsWritten | LegacyI18n.GotLineCorrected |
