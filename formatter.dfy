/**
 * The plain-text formatter and the broadcasting formatter
 * (pvcheck/formatter.py). A `TextFormatter` filters its messages by
 * verbosity, describes tests and executions, classifies and caps the error
 * lines of a section, keeps a per-test status and prints a summary at the end
 * of the session. Its destination stream is modelled as the sequence of
 * messages written so far, each standing for the text followed by '\n'.
 *
 * Every method is specified by a pure transition function of the old state
 * (`OnBeginTest`, `OnComparison`, ...); `Next` gathers them into one step per
 * event, which is what `CombinedFormatter` broadcasts.
 */
module Formatter {
  import opened Common
  import opened Text
  import opened TestData
  import opened Match
  import opened Executor
  import opened Events

  // Message priority levels, corresponding to the verbosity.
  const DebugLevel := 4
  const InfoLevel := 3
  const SuccessLevel := 2
  const WarningLevel := 1
  const ErrorLevel := 0
  const FatalLevel := -1

  /** The label of a section result or of a test: "ok", "warning" or "error". */
  datatype Status = Ok | Warned | Failed

  /** How `str` renders the temporary-file placeholder object in a message (its address is not modelled). */
  const PlaceholderText := "<object object>"

  // ---------------------------------------------------------------------
  // Messages

  /** The messages that writing each of `texts` at `level` produces at verbosity `v`. */
  function EmitAll(v: int, level: int, texts: seq<string>): (r: seq<string>)
    ensures r == texts <==> v >= level || texts == []
    ensures r == [] <==> v < level || texts == []
  {
    if v >= level then texts else []
  }

  /** The messages `message(level, text)` produces at verbosity `v`. */
  function Emitted(v: int, level: int, text: string): seq<string> { EmitAll(v, level, [text]) }

  lemma EmitAllSnoc(v: int, level: int, texts: seq<string>, text: string)
    ensures EmitAll(v, level, texts + [text]) == EmitAll(v, level, texts) + Emitted(v, level, text)
  {}

  lemma EmitAllAppend(v: int, level: int, a: seq<string>, b: seq<string>)
    ensures EmitAll(v, level, a + b) == EmitAll(v, level, a) + EmitAll(v, level, b)
  {}

  // ---------------------------------------------------------------------
  // _format_section

  function RStripAll(lines: seq<string>): (r: seq<string>)
    ensures |r| == |lines| && forall k :: 0 <= k < |r| ==> r[k] == RStrip(lines[k])
  {
    if lines == [] then [] else [RStrip(lines[0])] + RStripAll(lines[1..])
  }

  function PlusOtherLines(k: int): string { "(... plus other " + IntToString(k) + " lines ...)" }

  /** The lines a section shows: at most `maxlines`, the last of them replaced by a count of the rest. */
  function Shown(lines: seq<string>, maxlines: Option<nat>): seq<string>
    requires maxlines.None? || maxlines.value >= 1
  {
    if maxlines.Some? && |lines| > maxlines.value then
      lines[..maxlines.value - 1] + [PlusOtherLines(|lines| - maxlines.value + 1)]
    else lines
  }

  /**
   * Truncation loses no line unaccounted for: a section longer than
   * `maxlines` shows exactly `maxlines` lines, its first `maxlines - 1`
   * lines unchanged, and the count in the last one makes up the rest.
   */
  lemma ShownAccounts(lines: seq<string>, maxlines: Option<nat>)
    requires maxlines.None? || maxlines.value >= 1
    ensures maxlines.None? || |lines| <= maxlines.value ==> Shown(lines, maxlines) == lines
    ensures maxlines.Some? && |lines| > maxlines.value ==>
      var m := maxlines.value;
      var k := |lines| - m + 1;
      |Shown(lines, maxlines)| == m && Shown(lines, maxlines)[..m - 1] == lines[..m - 1] &&
      Shown(lines, maxlines)[m - 1] == PlusOtherLines(k) && (m - 1) + k == |lines|
  {
    if maxlines.Some? && |lines| > maxlines.value {
      var m := maxlines.value;
      assert Shown(lines, maxlines)[..m - 1] == lines[..m - 1];
    }
  }

  /** `_format_section(title, content, maxlines)`. */
  function FormatSection(title: string, content: string, maxlines: Option<nat>): (r: string)
    requires maxlines.None? || maxlines.value >= 1
    ensures SplitLines(content) == [] ==> r == title + ": <empty>"
    ensures |SplitLines(content)| == 1 ==> r == title + ": " + RStrip(SplitLines(content)[0])
    ensures |SplitLines(content)| > 1 ==>
      r == title + ":\n" + Join("\n", Shown(RStripAll(SplitLines(content)), maxlines))
  {
    var lines := RStripAll(SplitLines(content));
    if |lines| == 0 then title + ": <empty>"
    else if |lines| == 1 then title + ": " + lines[0]
    else title + ":\n" + Join("\n", Shown(lines, maxlines))
  }

  // ---------------------------------------------------------------------
  // begin_test and execution_result

  /** `_proc_args`: the placeholder is shown as "<temp.file>". */
  function ShownArg(a: Arg): string { match a case Word(w) => w case TmpFile => "<temp.file>" }

  function ProcArgs(args: seq<Arg>): (r: seq<string>)
    ensures |r| == |args| && forall k :: 0 <= k < |r| ==> r[k] == ShownArg(args[k])
  {
    if args == [] then [] else [ShownArg(args[0])] + ProcArgs(args[1..])
  }

  /**
   * The INFO messages of `begin_test`: a separator from the second test on,
   * then the description, the command line, the input and the temporary
   * file, each present only when given; sections are truncated to `maxlines`.
   */
  function BeginTestTexts(testcount: int, description: Option<string>, args: seq<Arg>, input: string,
                          tempfile: Option<string>, maxlines: Option<nat>): seq<string>
    requires maxlines.None? || maxlines.value >= 1
  {
    (if testcount > 0 then [Repeat('-', 60)] else [])
    + (if description.Some? then [FormatSection("TEST", description.value, maxlines)] else [])
    + [FormatSection("COMMAND LINE", Join(" ", ProcArgs(args)), maxlines)]
    + (if Strip(input) != "" then [FormatSection("INPUT", input, maxlines)] else [])
    + (if tempfile.Some? then [FormatSection("TEMPORARY FILE", tempfile.value, maxlines)] else [])
  }

  /** Sections are cut to 5 lines unless DEBUG is enabled. */
  function TestMaxLines(v: int): (m: Option<nat>)
    ensures m.None? <==> v >= DebugLevel
    ensures m.Some? ==> m.value == 5
  {
    if v >= DebugLevel then None else Some(5)
  }

  /**
   * `begin_test` always shows the command line, every argument in it, and
   * one message per optional part that is present.
   */
  lemma BeginTestShape(testcount: int, description: Option<string>, args: seq<Arg>, input: string,
                       tempfile: Option<string>, maxlines: Option<nat>)
    requires maxlines.None? || maxlines.value >= 1
    ensures var texts := BeginTestTexts(testcount, description, args, input, tempfile, maxlines);
      var pre := (if testcount > 0 then 1 else 0) + (if description.Some? then 1 else 0);
      |texts| == pre + 1 + (if Strip(input) != "" then 1 else 0) + (if tempfile.Some? then 1 else 0) &&
      texts[pre] == FormatSection("COMMAND LINE", Join(" ", ProcArgs(args)), maxlines) &&
      (testcount > 0 ==> texts[0] == Repeat('-', 60))
  {
    var a: seq<string> := if testcount > 0 then [Repeat('-', 60)] else [];
    var b := if description.Some? then [FormatSection("TEST", description.value, maxlines)] else [];
    var c := FormatSection("COMMAND LINE", Join(" ", ProcArgs(args)), maxlines);
    var d := if Strip(input) != "" then [FormatSection("INPUT", input, maxlines)] else [];
    var e := if tempfile.Some? then [FormatSection("TEMPORARY FILE", tempfile.value, maxlines)] else [];
    assert BeginTestTexts(testcount, description, args, input, tempfile, maxlines) == a + b + [c] + d + e;
    MiddleOfFive(a, b, c, d, e);
  }

  lemma MiddleOfFive(a: seq<string>, b: seq<string>, c: string, d: seq<string>, e: seq<string>)
    ensures var t := a + b + [c] + d + e;
      |t| == |a| + |b| + 1 + |d| + |e| && t[|a| + |b|] == c && (a != [] ==> t[0] == a[0])
  {
  }

  /** The `{progname}` field: the first argument as `str` renders it. */
  function ProgName(a: Arg): string { match a case Word(w) => w case TmpFile => PlaceholderText }

  /** The result table: the level of each outcome and its message, with the fields substituted. */
  function ResultLevel(r: ExecCode): (level: int)
    ensures level == DebugLevel <==> r == ErOk
    ensures r != ErOk ==> level == ErrorLevel
  {
    if r == ErOk then DebugLevel else ErrorLevel
  }

  function ResultMessage(r: ExecCode, progname: string, status: int): (msg: string)
    ensures msg == "" <==> r == ErOk
  {
    match r
    case ErOk => ""
    case ErTimeout => "TIMEOUT EXPIRED: PROCESS TERMINATED"
    case ErOutputLimit => "TOO MANY OUTPUT LINES"
    case ErSegfault => "PROCESS ENDED WITH A FAILURE (SEGMENTATION FAULT)"
    case ErError => "PROCESS ENDED WITH A FAILURE (ERROR CODE " + IntToString(status) + ")"
    case ErNotFile => "FAILED TO RUN THE FILE '" + progname + "' (the file does not exist)"
  }

  function Quoted(lines: seq<string>): (r: seq<string>)
    ensures |r| == |lines| && forall k :: 0 <= k < |r| ==> r[k] == "> " + lines[k]
  {
    if lines == [] then [] else ["> " + lines[0]] + Quoted(lines[1..])
  }

  /** The messages of `execution_result`, or the error indexing an empty command line raises. */
  function ExecutionLines(v: int, args: seq<Arg>, res: ExecResult): (r: Outcome<seq<string>>)
    ensures r.Raised? <==> args == []
    ensures r.Returned? && res.result != ErOk ==> (|r.value| >= 1 <==> v >= ErrorLevel)
    ensures r.Returned? && v < ErrorLevel ==> r.value == []
  {
    if args == [] then Raised(IndexError)
    else
      var msg := ResultMessage(res.result, ProgName(args[0]), res.status);
      Returned((if msg != "" then Emitted(v, ResultLevel(res.result), msg) else [])
        + (if res.output != "" then Emitted(v, DebugLevel, FormatSection("OUTPUT", Join("\n", Quoted(SplitLines(res.output))), None)) else []))
  }

  // ---------------------------------------------------------------------
  // comparison_result

  /** The error line for position `i` of a section, or the error indexing `matches` or `got` raises. */
  function ErrorLine(tag: string, i: nat, matches: seq<Option<string>>, got: seq<string>): (r: Outcome<string>)
    ensures r.Returned? <==> i < |matches| && (matches[i].None? ==> i < |got|)
    ensures r.Raised? ==> r.error == IndexError
    ensures r.Returned? ==> StartsWith(r.value, tag + ": ")
  {
    if i >= |matches| then Raised(IndexError)
    else if matches[i].None? then
      if i >= |got| then Raised(IndexError)
      else Returned(tag + ": " + "unexpected line '" + got[i] + "'")
    else if i >= |got| then Returned(tag + ": " + "missing line (expected '" + matches[i].value + "')")
    else Returned(tag + ": " + "line " + IntToString(i + 1) + " is wrong  (expected '" + matches[i].value
                  + "', got '" + got[i] + "')")
  }

  /** The error lines of the first `n` positions: one per position with a positive difference. */
  function ErrorLines(tag: string, diffs: seq<real>, matches: seq<Option<string>>, got: seq<string>, n: nat): Outcome<seq<string>>
    requires n <= |diffs|
  {
    if n == 0 then Returned([])
    else
      match ErrorLines(tag, diffs, matches, got, n - 1)
      case Raised(e) => Raised(e)
      case Returned(ls) =>
        if diffs[n - 1] <= 0.0 then Returned(ls)
        else
          match ErrorLine(tag, n - 1, matches, got)
          case Raised(e) => Raised(e)
          case Returned(l) => Returned(ls + [l])
  }

  /** The positions among the first `n` whose difference is positive, in ascending order. */
  function Wrong(diffs: seq<real>, n: nat): seq<nat>
    requires n <= |diffs|
  {
    if n == 0 then [] else Wrong(diffs, n - 1) + (if diffs[n - 1] > 0.0 then [n - 1] else [])
  }

  /** The wrong positions below `n` are exactly those with a positive difference, in ascending order. */
  lemma {:induction false} WrongShape(diffs: seq<real>, n: nat)
    requires n <= |diffs|
    ensures var r := Wrong(diffs, n);
      (forall k :: 0 <= k < |r| ==> r[k] < n && diffs[r[k]] > 0.0) &&
      (forall j, k :: 0 <= j < k < |r| ==> r[j] < r[k]) &&
      (forall i :: 0 <= i < n && diffs[i] > 0.0 ==> i in r)
  {
    if n > 0 {
      var w := Wrong(diffs, n - 1);
      WrongShape(diffs, n - 1);
      if diffs[n - 1] > 0.0 {
        var r := w + [n - 1];
        assert Wrong(diffs, n) == r;
        assert r[|w|] == n - 1;
        forall k | 0 <= k < |w| ensures r[k] == w[k] { }
      } else {
        assert Wrong(diffs, n) == w;
      }
    }
  }

  /** Once indexing has failed at some position, the error is the outcome for every longer prefix. */
  lemma {:induction false} ErrorLinesRaisedStays(tag: string, diffs: seq<real>, matches: seq<Option<string>>,
                                                 got: seq<string>, i: nat, n: nat)
    requires i <= n <= |diffs|
    requires ErrorLines(tag, diffs, matches, got, i).Raised?
    ensures ErrorLines(tag, diffs, matches, got, n) == ErrorLines(tag, diffs, matches, got, i)
    decreases n - i
  {
    if i < n {
      assert ErrorLines(tag, diffs, matches, got, i + 1) == ErrorLines(tag, diffs, matches, got, i);
      ErrorLinesRaisedStays(tag, diffs, matches, got, i + 1, n);
    }
  }

  /** Every position of `w` can be classified without an indexing error. */
  predicate Classified(tag: string, w: seq<nat>, matches: seq<Option<string>>, got: seq<string>) {
    forall k :: 0 <= k < |w| ==> ErrorLine(tag, w[k], matches, got).Returned?
  }

  /** `ls` holds the error line of each position of `w`, in order. */
  predicate LinesFor(ls: seq<string>, tag: string, w: seq<nat>, matches: seq<Option<string>>, got: seq<string>) {
    |ls| == |w| && forall k :: 0 <= k < |w| ==> ErrorLine(tag, w[k], matches, got) == Returned(ls[k])
  }

  lemma ClassifiedSnoc(tag: string, w: seq<nat>, i: nat, matches: seq<Option<string>>, got: seq<string>)
    ensures Classified(tag, w + [i], matches, got) <==>
      Classified(tag, w, matches, got) && ErrorLine(tag, i, matches, got).Returned?
  {
    if Classified(tag, w + [i], matches, got) {
      forall k | 0 <= k < |w| ensures ErrorLine(tag, w[k], matches, got).Returned? {
        assert (w + [i])[k] == w[k];
      }
      assert (w + [i])[|w|] == i;
    }
  }

  lemma LinesForSnoc(ls: seq<string>, l: string, tag: string, w: seq<nat>, i: nat,
                     matches: seq<Option<string>>, got: seq<string>)
    requires LinesFor(ls, tag, w, matches, got) && ErrorLine(tag, i, matches, got) == Returned(l)
    ensures LinesFor(ls + [l], tag, w + [i], matches, got)
  {
    forall k | 0 <= k < |w| + 1
      ensures ErrorLine(tag, (w + [i])[k], matches, got) == Returned((ls + [l])[k])
    {
      if k < |w| {
        assert (w + [i])[k] == w[k] && (ls + [l])[k] == ls[k];
      }
    }
  }

  /** The error lines of the first `n` differences are those of their wrong positions. */
  predicate ErrorLinesExact(tag: string, diffs: seq<real>, matches: seq<Option<string>>, got: seq<string>, n: nat)
    requires n <= |diffs|
  {
    LinesExact(ErrorLines(tag, diffs, matches, got, n), tag, Wrong(diffs, n), matches, got)
  }

  /** `r` holds the error lines of the positions `w`, or an error when one cannot be classified. */
  predicate LinesExact(r: Outcome<seq<string>>, tag: string, w: seq<nat>, matches: seq<Option<string>>, got: seq<string>) {
    (r.Returned? <==> Classified(tag, w, matches, got)) &&
    (r.Returned? ==> LinesFor(r.value, tag, w, matches, got))
  }

  /** The induction behind `ErrorLinesPerWrongPosition`. */
  lemma {:induction false} ErrorLinesFor(tag: string, diffs: seq<real>, matches: seq<Option<string>>,
                                         got: seq<string>, n: nat)
    requires n <= |diffs|
    ensures ErrorLinesExact(tag, diffs, matches, got, n)
  {
    if n > 0 {
      ErrorLinesFor(tag, diffs, matches, got, n - 1);
      if diffs[n - 1] > 0.0 {
        ErrorLinesWrongStep(tag, diffs, matches, got, n - 1);
      } else {
        ErrorLinesRightStep(tag, diffs, matches, got, n - 1);
      }
    }
  }

  /** A position without difference adds nothing. */
  lemma ErrorLinesRightStep(tag: string, diffs: seq<real>, matches: seq<Option<string>>, got: seq<string>, m: nat)
    requires m < |diffs| && diffs[m] <= 0.0 && ErrorLinesExact(tag, diffs, matches, got, m)
    ensures ErrorLinesExact(tag, diffs, matches, got, m + 1)
  {
    var w := Wrong(diffs, m);
    var r := ErrorLines(tag, diffs, matches, got, m);
    assert LinesExact(r, tag, w, matches, got);
    assert Wrong(diffs, m + 1) == w;
    assert ErrorLines(tag, diffs, matches, got, m + 1) == r;
  }

  /** A wrong position `m` adds its error line, or the error of classifying it. */
  lemma ErrorLinesWrongStep(tag: string, diffs: seq<real>, matches: seq<Option<string>>, got: seq<string>, m: nat)
    requires m < |diffs| && diffs[m] > 0.0 && ErrorLinesExact(tag, diffs, matches, got, m)
    ensures ErrorLinesExact(tag, diffs, matches, got, m + 1)
  {
    var w := Wrong(diffs, m);
    var p := ErrorLines(tag, diffs, matches, got, m);
    var e := ErrorLine(tag, m, matches, got);
    assert Wrong(diffs, m + 1) == w + [m];
    ClassifiedSnoc(tag, w, m, matches, got);
    if p.Raised? {
      assert ErrorLines(tag, diffs, matches, got, m + 1) == p;
    } else if e.Raised? {
      assert ErrorLines(tag, diffs, matches, got, m + 1).Raised?;
    } else {
      assert ErrorLines(tag, diffs, matches, got, m + 1) == Returned(p.value + [e.value]);
      LinesForSnoc(p.value, e.value, tag, w, m, matches, got);
    }
  }

  /**
   * The error lines are exactly one line per wrong position, in ascending
   * order; they exist iff every wrong position can be classified.
   */
  lemma ErrorLinesPerWrongPosition(tag: string, diffs: seq<real>, matches: seq<Option<string>>,
                                   got: seq<string>, n: nat)
    requires n <= |diffs|
    ensures ErrorLines(tag, diffs, matches, got, n).Returned? ==>
      forall k :: 0 <= k < |Wrong(diffs, n)| ==> ErrorLine(tag, Wrong(diffs, n)[k], matches, got).Returned?
    ensures (forall k :: 0 <= k < |Wrong(diffs, n)| ==> ErrorLine(tag, Wrong(diffs, n)[k], matches, got).Returned?) ==>
      ErrorLines(tag, diffs, matches, got, n).Returned?
    ensures ErrorLines(tag, diffs, matches, got, n).Returned? ==>
      var ls := ErrorLines(tag, diffs, matches, got, n).value;
      |ls| == |Wrong(diffs, n)| &&
      forall k :: 0 <= k < |ls| ==> ls[k] == ErrorLine(tag, Wrong(diffs, n)[k], matches, got).value
  {
    ErrorLinesFor(tag, diffs, matches, got, n);
    var r := ErrorLines(tag, diffs, matches, got, n);
    var w := Wrong(diffs, n);
    assert LinesExact(r, tag, w, matches, got);
    assert r.Returned? <==> Classified(tag, w, matches, got);
    if r.Returned? {
      assert LinesFor(r.value, tag, w, matches, got);
    }
  }

  function PlusOtherErrors(k: int): string { "(... plus other " + IntToString(k) + " errors ...)" }

  /** Python's `lines[:d]` for a possibly negative `d`. */
  function SliceTo(lines: seq<string>, d: int): (r: seq<string>)
    ensures 0 <= d <= |lines| ==> r == lines[..d]
  {
    if d >= 0 then lines[..Min(d, |lines|)] else lines[..Max(0, |lines| + d)]
  }

  /** The error lines printed under the cap `maxerrors`. */
  function Capped(lines: seq<string>, maxerrors: Option<int>): seq<string>
  {
    var disp := if maxerrors.None? || |lines| < maxerrors.value then |lines| else maxerrors.value - 1;
    var extra := |lines| - disp;
    SliceTo(lines, disp) + (if extra > 0 then [PlusOtherErrors(extra)] else [])
  }

  /**
   * The cap for `maxerrors >= 1`: fewer errors are all printed; otherwise
   * `maxerrors - 1` of them are followed by the count of the others, so at
   * most `maxerrors` lines appear and every error is shown or counted.
   */
  lemma CappedShape(lines: seq<string>, maxerrors: Option<int>)
    requires maxerrors.None? || maxerrors.value >= 1
    ensures maxerrors.None? || |lines| < maxerrors.value ==> Capped(lines, maxerrors) == lines
    ensures maxerrors.Some? && |lines| >= maxerrors.value ==>
      var m := maxerrors.value;
      Capped(lines, maxerrors) == lines[..m - 1] + [PlusOtherErrors(|lines| - (m - 1))]
    ensures maxerrors.Some? ==> |Capped(lines, maxerrors)| <= maxerrors.value
  {
    if maxerrors.None? || |lines| < maxerrors.value {
      assert lines[..|lines|] == lines;
    }
  }

  /** Six errors under a cap of four: three lines and "(... plus other 3 errors ...)". */
  lemma SixErrorsCappedAtFour(lines: seq<string>)
    requires |lines| == 6
    ensures Capped(lines, Some(4)) == lines[..3] + ["(... plus other 3 errors ...)"]
  {
    CappedShape(lines, Some(4));
    assert DigitChar(3) == '3';
    assert NatToString(3) == "3";
    assert PlusOtherErrors(3) == "(... plus other 3 errors ...)";
  }

  function WrongCount(tag: string, expected: nat, got: nat): seq<string>
  {
    if expected != got then
      [tag + ": " + "wrong number of lines (expected " + IntToString(expected) + ", got " + IntToString(got) + ")"]
    else []
  }

  function FirstMatched(tag: string, diffs: seq<real>, got: nat): seq<string>
  {
    if got > 0 && diffs != [] && MaxDiff(diffs[..Min(got, |diffs|)]) == 0.0 then
      [tag + ": " + "The first " + IntToString(got) + " lines matched correctly"]
    else []
  }

  /** `prnt` of `_detailed_comparison`: right-stripped and cut to 30 characters. */
  function Prnt(s: Option<string>): (r: string)
    ensures |r| <= 30
  {
    var t := if s.Some? then RStrip(s.value) else "<nothing>";
    if |t| <= 30 then t else t[..26] + "..."
  }

  function DetailRow(e: Option<string>, a: Option<string>): string {
    PadRight(Prnt(e), 30) + "| " + PadRight(Prnt(a), 30)
  }

  /** The rows of `zip_longest(matches, got)`, a missing side shown as "<nothing>". */
  function ZipRows(matches: seq<Option<string>>, got: seq<string>): (r: seq<string>)
    ensures |r| == Max(|matches|, |got|)
    ensures forall k :: 0 <= k < |r| ==> |r[k]| == 62
  {
    seq(Max(|matches|, |got|), k requires 0 <= k =>
      DetailRow(if k < |matches| then matches[k] else None, if k < |got| then Some(got[k]) else None))
  }

  function DetailLines(tag: string, matches: seq<Option<string>>, got: seq<string>): seq<string> {
    [tag + ": " + "detailed comparison", PadRight("EXPECTED OUTPUT", 30) + "| " + PadRight("ACTUAL OUTPUT", 30)]
    + ZipRows(matches, got)
  }

  // ---------------------------------------------------------------------
  // Test status

  /** The test status after a comparison: a success sets "ok" only when unset, an error always sets "error". */
  function AfterComparison(st: Option<Status>, ok: bool): Option<Status> {
    if ok then (if st.None? then Some(Ok) else st) else Some(Failed)
  }

  /** The test status after a missing section: "warning" unless it is "ok". */
  function AfterMissing(st: Option<Status>): Option<Status> {
    if st != Some(Ok) then Some(Warned) else st
  }

  /** What `end_test` records for the program: an unset status counts as an error. */
  function ProgramStatus(st: Option<Status>): (r: Status)
    ensures st.Some? ==> r == st.value
    ensures st.None? ==> r == Failed
  {
    match st
    case Some(s) => s
    case None => Failed
  }

  /** What a section contributes to the status: a perfect comparison, a failed one, or a missing section. */
  datatype Mark = Good | Bad | Absent

  function Mark1(st: Option<Status>, m: Mark): Option<Status> {
    match m
    case Good => AfterComparison(st, true)
    case Bad => AfterComparison(st, false)
    case Absent => AfterMissing(st)
  }

  function StatusAfter(st: Option<Status>, marks: seq<Mark>): Option<Status>
    decreases |marks|
  {
    if marks == [] then st else StatusAfter(Mark1(st, marks[0]), marks[1..])
  }

  lemma {:induction false} NeverOkAgain(st: Option<Status>, marks: seq<Mark>)
    requires st == Some(Warned) || st == Some(Failed)
    ensures StatusAfter(st, marks) != Some(Ok)
    decreases |marks|
  {
    if marks != [] {
      NeverOkAgain(Mark1(st, marks[0]), marks[1..]);
    }
  }

  lemma {:induction false} OkStaysUnlessBad(marks: seq<Mark>)
    ensures StatusAfter(Some(Ok), marks) == Some(Ok) <==> Bad !in marks
    decreases |marks|
  {
    if marks != [] {
      if marks[0] == Bad {
        NeverOkAgain(Some(Failed), marks[1..]);
      } else {
        OkStaysUnlessBad(marks[1..]);
        assert Bad in marks <==> Bad in marks[1..];
      }
    }
  }

  /**
   * A test ends "ok" iff its first section compared perfectly and no section
   * compared wrongly: a missing section cannot spoil an "ok", but an "ok"
   * cannot be reached once a warning or an error is set.
   */
  lemma {:induction false} TestOkIff(marks: seq<Mark>)
    ensures StatusAfter(None, marks) == Some(Ok) <==> marks != [] && marks[0] == Good && Bad !in marks
  {
    if marks != [] {
      match marks[0]
      case Good =>
        OkStaysUnlessBad(marks[1..]);
        assert Bad in marks <==> Bad in marks[1..];
      case Bad => NeverOkAgain(Some(Failed), marks[1..]);
      case Absent => NeverOkAgain(Some(Warned), marks[1..]);
    }
  }

  /** A missing section after an error downgrades the test to a warning. */
  lemma MissingDowngradesError()
    ensures StatusAfter(None, [Bad, Absent]) == Some(Warned)
  {
    assert [Bad, Absent][1..] == [Absent];
    assert [Absent][1..] == [];
  }

  // ---------------------------------------------------------------------
  // Summary

  function Firsts(results: seq<(string, Status)>): (r: seq<string>)
    ensures |r| == |results| && forall k :: 0 <= k < |r| ==> r[k] == results[k].0
  {
    if results == [] then [] else Firsts(results[..|results| - 1]) + [results[|results| - 1].0]
  }

  /** `_count_results(tag, label)`. */
  function CountResults(results: seq<(string, Status)>, t: string, s: Status): nat
  {
    if results == [] then 0
    else CountResults(results[..|results| - 1], t, s) + (if results[|results| - 1] == (t, s) then 1 else 0)
  }

  /** The number of results recorded for `t`. */
  function Occurrences(results: seq<(string, Status)>, t: string): nat
  {
    if results == [] then 0
    else Occurrences(results[..|results| - 1], t) + (if results[|results| - 1].0 == t then 1 else 0)
  }

  /** A tag's successes, warnings and errors add up to the results recorded for it. */
  lemma {:induction false} CountsAddUp(results: seq<(string, Status)>, t: string)
    ensures CountResults(results, t, Ok) + CountResults(results, t, Warned) + CountResults(results, t, Failed)
            == Occurrences(results, t)
  {
    if results != [] {
      CountsAddUp(results[..|results| - 1], t);
      var x := results[|results| - 1];
      match x.1
      case Ok =>
      case Warned =>
      case Failed =>
    }
  }

  lemma {:induction false} NoOccurrences(results: seq<(string, Status)>, t: string)
    requires t !in Firsts(results)
    ensures Occurrences(results, t) == 0
  {
    if results != [] {
      var init := results[..|results| - 1];
      assert forall k :: 0 <= k < |init| ==> Firsts(init)[k] == Firsts(results)[k];
      NoOccurrences(init, t);
    }
  }

  /** The results counted over a list of tags. */
  function Tally(results: seq<(string, Status)>, tags: seq<string>): nat
  {
    if tags == [] then 0 else Tally(results, tags[..|tags| - 1]) + Occurrences(results, tags[|tags| - 1])
  }

  lemma {:induction false} TallySnoc(results: seq<(string, Status)>, x: (string, Status), tags: seq<string>)
    requires forall i, j :: 0 <= i < j < |tags| ==> tags[i] != tags[j]
    ensures Tally(results + [x], tags) == Tally(results, tags) + (if x.0 in tags then 1 else 0)
  {
    if tags != [] {
      var init := tags[..|tags| - 1];
      assert (results + [x])[..|results + [x]| - 1] == results;
      TallySnoc(results, x, init);
      assert x.0 in tags <==> x.0 in init || x.0 == tags[|tags| - 1];
      if x.0 == tags[|tags| - 1] {
        assert x.0 !in init by {
          forall k | 0 <= k < |init| ensures init[k] != x.0 {
            assert tags[k] != tags[|tags| - 1];
          }
        }
      }
    }
  }

  /** The summary accounts for every recorded result exactly once: its rows add up to all of them. */
  lemma {:induction false} SummaryCountsAll(results: seq<(string, Status)>)
    ensures Tally(results, Dedup(Firsts(results))) == |results|
  {
    if results != [] {
      var init := results[..|results| - 1];
      var x := results[|results| - 1];
      assert results == init + [x];
      SummaryCountsAll(init);
      var fs := Firsts(results);
      assert fs[..|fs| - 1] == Firsts(init);
      assert fs[|fs| - 1] == x.0;
      var d := Dedup(Firsts(init));
      TallySnoc(init, x, d);
      if x.0 !in d {
        assert x.0 !in Firsts(init);
        NoOccurrences(init, x.0);
        assert Dedup(fs) == d + [x.0];
        assert (d + [x.0])[..|d|] == d;
      }
    }
  }

  function MaxLen(tags: seq<string>): (l: nat)
    requires tags != []
    ensures forall k :: 0 <= k < |tags| ==> |tags[k]| <= l
    ensures exists k :: 0 <= k < |tags| && |tags[k]| == l
  {
    if |tags| == 1 then |tags[0]|
    else
      var l := MaxLen(tags[1..]);
      assert forall k :: 1 <= k < |tags| ==> tags[k] == tags[1..][k - 1];
      if |tags[0]| < l then l else |tags[0]|
  }

  function SummaryRow(t: string, width: nat, results: seq<(string, Status)>): (r: string)
    ensures |r| > Max(|t|, width) && r[..Max(|t|, width)] == PadRight(t, width)
  {
    PadRight(t, width) + ":"
    + "  " + PadLeft(NatToString(CountResults(results, t, Ok)), 2) + " successes,"
    + "  " + PadLeft(NatToString(CountResults(results, t, Warned)), 2) + " warnings,"
    + "  " + PadLeft(NatToString(CountResults(results, t, Failed)), 2) + " errors"
  }

  /** One row per tag, each starting with the tag padded to the common width. */
  function SummaryRows(tags: seq<string>, width: nat, results: seq<(string, Status)>): (r: seq<string>)
    ensures |r| == |tags|
    ensures forall k :: 0 <= k < |r| ==> r[k] == SummaryRow(tags[k], width, results)
  {
    seq(|tags|, k requires 0 <= k < |tags| => SummaryRow(tags[k], width, results))
  }

  /**
   * In the summary every tag appears once and its first column is exactly
   * as wide as the longest tag.
   */
  lemma SummaryAligned(results: seq<(string, Status)>)
    requires results != []
    ensures var tags := Dedup(Firsts(results));
      tags != [] &&
      forall k :: 0 <= k < |tags| ==>
        SummaryRows(tags, MaxLen(tags), results)[k][..MaxLen(tags)] == PadRight(tags[k], MaxLen(tags))
  {
    var tags := Dedup(Firsts(results));
    assert Firsts(results)[0] in tags;
  }

  // ---------------------------------------------------------------------
  // The formatter's state and its transitions

  const SummaryHead: seq<string> := ["", Repeat('=', 60), "", "SUMMARY"]

  datatype TextState = TextState(verbosity: int, maxerrors: Option<int>, testcount: int,
                                 testStatus: Option<Status>, sectResults: seq<(string, Status)>,
                                 output: seq<string>)

  function OnBeginSession(s: TextState): TextState {
    s.(testcount := 0, sectResults := [])
  }

  /** `end_session`: the summary is written only after at least two tests; `max` of no tags raises. */
  function OnEndSession(s: TextState): (TextState, Option<PyError>)
  {
    if s.testcount < 2 then (s, None)
    else
      var v := s.verbosity;
      var head := s.output + EmitAll(v, InfoLevel, SummaryHead);
      var tags := Dedup(Firsts(s.sectResults));
      if tags == [] then (s.(output := head), Some(ValueError))
      else
        (s.(output := head + EmitAll(v, InfoLevel, SummaryRows(tags, MaxLen(tags), s.sectResults))
                     + Emitted(v, InfoLevel, ""),
            testcount := 0), None)
  }

  function OnBeginTest(s: TextState, description: Option<string>, args: seq<Arg>, input: string,
                       tempfile: Option<string>): TextState
  {
    s.(output := s.output + EmitAll(s.verbosity, InfoLevel,
                                    BeginTestTexts(s.testcount, description, args, input, tempfile, TestMaxLines(s.verbosity))),
       testcount := s.testcount + 1, testStatus := None)
  }

  function OnEndTest(s: TextState): TextState {
    s.(sectResults := s.sectResults + [("<program>", ProgramStatus(s.testStatus))])
  }

  function OnExecutionResult(s: TextState, args: seq<Arg>, res: ExecResult): (TextState, Option<PyError>)
  {
    match ExecutionLines(s.verbosity, args, res)
    case Raised(e) => (s, Some(e))
    case Returned(ls) => (s.(output := s.output + ls), None)
  }

  function OnComparison(s: TextState, expected: Section, got: Section, diffs: seq<real>,
                        matches: seq<Option<string>>): (TextState, Option<PyError>)
  {
    var tag := expected.tag;
    var v := s.verbosity;
    if MaxDiff(diffs) == 0.0 then
      (WithDetails(Passed(s, tag), tag, matches, got.content), None)
    else
      var (s1, e) := Failure(s, expected, got, diffs, matches);
      if e.Some? then (s1, e) else (WithDetails(s1, tag, matches, got.content), None)
  }

  /** A perfect section: recorded "ok", the status set to "ok" if unset, and the success message. */
  function Passed(s: TextState, tag: string): TextState {
    s.(sectResults := s.sectResults + [(tag, Ok)], testStatus := AfterComparison(s.testStatus, true),
       output := s.output + Emitted(s.verbosity, SuccessLevel, tag + ": OK"))
  }

  /** A wrong section: recorded "error", the status set to "error", and the error report. */
  function Failure(s: TextState, expected: Section, got: Section, diffs: seq<real>,
                   matches: seq<Option<string>>): (TextState, Option<PyError>)
  {
    var tag := expected.tag;
    var v := s.verbosity;
    var s1 := s.(sectResults := s.sectResults + [(tag, Failed)], testStatus := Some(Failed),
                 output := s.output + EmitAll(v, ErrorLevel, WrongCount(tag, |expected.content|, |got.content|)));
    match ErrorLines(tag, diffs, matches, got.content, |diffs|)
    case Raised(e) => (s1, Some(e))
    case Returned(lines) =>
      (s1.(output := s1.output + EmitAll(v, ErrorLevel, Capped(lines, s.maxerrors))
                    + EmitAll(v, WarningLevel, FirstMatched(tag, diffs, |got.content|))), None)
  }

  /** The detailed comparison, written only when DEBUG is enabled. */
  function WithDetails(s: TextState, tag: string, matches: seq<Option<string>>, got: seq<string>): TextState {
    s.(output := s.output + EmitAll(s.verbosity, DebugLevel, DetailLines(tag, matches, got)))
  }

  function OnMissing(s: TextState, expected: Section): TextState {
    s.(testStatus := AfterMissing(s.testStatus), sectResults := s.sectResults + [(expected.tag, Warned)],
       output := s.output + Emitted(s.verbosity, WarningLevel, expected.tag + ": " + "missing section"))
  }

  /** One formatter call as a state transition; the older two-argument `execution_result` call is a `TypeError`. */
  function Next(s: TextState, e: Event): (TextState, Option<PyError>)
  {
    match e
    case BeginSession => (OnBeginSession(s), None)
    case EndSession => OnEndSession(s)
    case BeginTest(d, args, input, tmp) => (OnBeginTest(s, d, args, input, tmp), None)
    case ExecutionResult(args, res, _) => OnExecutionResult(s, args, res)
    case PlainExecutionResult(_, _) => (s, Some(TypeError))
    case ComparisonResult(x, g, diffs, matches) => OnComparison(s, x, g, diffs, matches)
    case MissingSection(x) => (OnMissing(s, x), None)
    case EndTest => (OnEndTest(s), None)
  }

  /** The mark a comparison or a missing section leaves on the test status. */
  function MarkOf(e: Event): Option<Mark> {
    match e
    case ComparisonResult(_, _, diffs, _) => Some(if MaxDiff(diffs) == 0.0 then Good else Bad)
    case MissingSection(_) => Some(Absent)
    case _ => None
  }

  /** The status kept by the transitions is the one `StatusAfter` computes from the marks. */
  lemma NextStatus(s: TextState, e: Event)
    requires e.ComparisonResult? || e.MissingSection?
    ensures Next(s, e).0.testStatus == Mark1(s.testStatus, MarkOf(e).value)
    ensures Next(s, e).0.sectResults == s.sectResults + [(if e.MissingSection? then e.expected.tag else e.expected.tag,
                                                         match MarkOf(e).value case Good => Ok case Bad => Failed case Absent => Warned)]
  {}

  /** Every transition keeps the verbosity and the cap, and only ever appends to the output. */
  lemma NextAppends(s: TextState, e: Event)
    ensures Next(s, e).0.verbosity == s.verbosity && Next(s, e).0.maxerrors == s.maxerrors
    ensures s.output <= Next(s, e).0.output
    ensures e.BeginSession? || e.EndTest? || e.PlainExecutionResult? ==> Next(s, e).0.output == s.output
    ensures e.ExecutionResult? && e.args != [] && e.result.result == ErOk && s.verbosity < DebugLevel ==>
      Next(s, e).0.output == s.output && Next(s, e).1.None?
  {
    match e
    case EndSession =>
      assert Next(s, e) == OnEndSession(s);
      EndSessionAppends(s);
    case BeginTest(d, args, input, tmp) =>
      assert Next(s, e).0 == OnBeginTest(s, d, args, input, tmp);
    case ExecutionResult(args, res, _) =>
      assert Next(s, e) == OnExecutionResult(s, args, res);
    case ComparisonResult(x, g, diffs, matches) =>
      assert Next(s, e) == OnComparison(s, x, g, diffs, matches);
      ComparisonAppends(s, x, g, diffs, matches);
    case MissingSection(x) =>
      assert Next(s, e).0 == OnMissing(s, x);
    case _ =>
  }

  lemma EndSessionAppends(s: TextState)
    ensures var n := OnEndSession(s).0;
      n.verbosity == s.verbosity && n.maxerrors == s.maxerrors && s.output <= n.output
  {
    if s.testcount >= 2 {
      var head := s.output + EmitAll(s.verbosity, InfoLevel, SummaryHead);
      assert s.output <= head;
    }
  }

  lemma ComparisonAppends(s: TextState, x: Section, g: Section, diffs: seq<real>, matches: seq<Option<string>>)
    ensures var n := OnComparison(s, x, g, diffs, matches).0;
      n.verbosity == s.verbosity && n.maxerrors == s.maxerrors && s.output <= n.output
  {
    if MaxDiff(diffs) != 0.0 {
      var s1 := s.(sectResults := s.sectResults + [(x.tag, Failed)], testStatus := Some(Failed),
                   output := s.output + EmitAll(s.verbosity, ErrorLevel, WrongCount(x.tag, |x.content|, |g.content|)));
      assert s.output <= s1.output;
      match ErrorLines(x.tag, diffs, matches, g.content, |diffs|)
      case Raised(_) =>
      case Returned(_) =>
    }
  }

  /** At verbosity below ERROR nothing but the fatal messages are written. */
  lemma {:induction false} SilentBelowError(s: TextState, e: Event)
    requires s.verbosity < ErrorLevel
    ensures Next(s, e).0.output == s.output
  {
    match e
    case EndSession =>
      assert Next(s, e) == OnEndSession(s);
    case BeginTest(d, args, input, tmp) =>
      assert Next(s, e).0 == OnBeginTest(s, d, args, input, tmp);
    case ExecutionResult(args, res, _) =>
      assert Next(s, e) == OnExecutionResult(s, args, res);
    case ComparisonResult(x, g, diffs, matches) =>
      assert Next(s, e) == OnComparison(s, x, g, diffs, matches);
      ComparisonSilent(s, x, g, diffs, matches);
    case MissingSection(x) =>
      assert Next(s, e).0 == OnMissing(s, x);
    case _ =>
  }

  lemma ComparisonSilent(s: TextState, x: Section, g: Section, diffs: seq<real>, matches: seq<Option<string>>)
    requires s.verbosity < ErrorLevel
    ensures OnComparison(s, x, g, diffs, matches).0.output == s.output
  {
    if MaxDiff(diffs) != 0.0 {
      FailureSilent(s, x, g, diffs, matches);
    }
  }

  lemma FailureSilent(s: TextState, expected: Section, got: Section, diffs: seq<real>, matches: seq<Option<string>>)
    requires s.verbosity < ErrorLevel
    ensures Failure(s, expected, got, diffs, matches).0.output == s.output
  {
    match ErrorLines(expected.tag, diffs, matches, got.content, |diffs|)
    case Raised(_) =>
    case Returned(_) =>
  }

  // ---------------------------------------------------------------------
  // TextFormatter

  class TextFormatter {
    var verbosity: int
    const maxerrors: Option<int>
    var testcount: int
    var testStatus: Option<Status>
    var sectResults: seq<(string, Status)>
    /** The messages written to the destination, each followed there by '\n'. */
    var output: seq<string>

    function State(): TextState
      reads this
    {
      TextState(verbosity, maxerrors, testcount, testStatus, sectResults, output)
    }

    /** `TextFormatter(destination, verbosity, maxerrors)`: the verbosity defaults to INFO. */
    constructor(verbosity: Option<int>, maxerrors: Option<int>)
      ensures State() == TextState(if verbosity.Some? then verbosity.value else InfoLevel, maxerrors, 0, None, [], [])
    {
      this.verbosity := if verbosity.Some? then verbosity.value else InfoLevel;
      this.maxerrors := maxerrors;
      testcount := 0;
      testStatus := None;
      sectResults := [];
      output := [];
    }

    method SetVerbosity(v: Option<int>)
      modifies this
      ensures State() == old(State()).(verbosity := if v.Some? then v.value else InfoLevel)
    {
      verbosity := if v.Some? then v.value else InfoLevel;
    }

    /** `level_enabled(level)`. */
    function LevelEnabled(level: int): (r: bool)
      reads this
      ensures r <==> Emitted(verbosity, level, "") != []
    {
      verbosity >= level
    }

    /** `message(level, text)`: the text is written iff the level is enabled. */
    method Message(level: int, text: string)
      modifies this
      ensures State() == old(State()).(output := old(output) + Emitted(verbosity, level, text))
    {
      if LevelEnabled(level) {
        output := output + [text];
      }
    }

    /** Writes each of `texts` at `level`, in order. */
    method Messages(level: int, texts: seq<string>)
      modifies this
      ensures State() == old(State()).(output := old(output) + EmitAll(verbosity, level, texts))
    {
      for i := 0 to |texts|
        invariant State() == old(State()).(output := old(output) + EmitAll(verbosity, level, texts[..i]))
      {
        SnocSlice(texts, i);
        EmitAllSnoc(verbosity, level, texts[..i], texts[i]);
        Message(level, texts[i]);
      }
      assert texts[..|texts|] == texts;
    }

    /** `fatal(text)` calls a `_message` method the class does not have. */
    method Fatal(text: string) returns (err: Option<PyError>)
      ensures err == Some(AttributeError)
    {
      err := Some(AttributeError);
    }

    /** `fatal(text)` as evidently intended: a message at the FATAL level. */
    method FatalMessage(text: string)
      modifies this
      ensures State() == old(State()).(output := old(output) + Emitted(verbosity, FatalLevel, text))
      ensures verbosity >= FatalLevel ==> output == old(output) + [text]
    {
      Message(FatalLevel, text);
    }

    method BeginSession()
      modifies this
      ensures State() == OnBeginSession(old(State()))
    {
      testcount := 0;
      sectResults := [];
    }

    method EndSession() returns (err: Option<PyError>)
      modifies this
      ensures State() == OnEndSession(old(State())).0 && err == OnEndSession(old(State())).1
    {
      err := None;
      if testcount < 2 {
        return;
      }
      Messages(InfoLevel, SummaryHead);
      var tags := Dedup(Firsts(sectResults));
      if tags == [] {
        err := Some(ValueError);
        return;
      }
      Messages(InfoLevel, SummaryRows(tags, MaxLen(tags), sectResults));
      Message(InfoLevel, "");
      testcount := 0;
    }

    method BeginTest(description: Option<string>, args: seq<Arg>, input: string, tempfile: Option<string>)
      modifies this
      ensures State() == OnBeginTest(old(State()), description, args, input, tempfile)
    {
      var maxlines := TestMaxLines(verbosity);
      Messages(InfoLevel, BeginTestTexts(testcount, description, args, input, tempfile, maxlines));
      testcount := testcount + 1;
      testStatus := None;
    }

    method EndTest()
      modifies this
      ensures State() == OnEndTest(old(State()))
    {
      sectResults := sectResults + [("<program>", ProgramStatus(testStatus))];
    }

    method ExecutionResult(args: seq<Arg>, res: ExecResult) returns (err: Option<PyError>)
      modifies this
      ensures State() == OnExecutionResult(old(State()), args, res).0
      ensures err == OnExecutionResult(old(State()), args, res).1
    {
      if args == [] {
        return Some(IndexError);
      }
      var msg := ResultMessage(res.result, ProgName(args[0]), res.status);
      if msg != "" {
        Message(ResultLevel(res.result), msg);
      }
      if res.output != "" && LevelEnabled(DebugLevel) {
        Message(DebugLevel, FormatSection("OUTPUT", Join("\n", Quoted(SplitLines(res.output))), None));
      }
      err := None;
    }

    /** Classifies the wrong positions one by one, stopping at the first that cannot be indexed. */
    static method CollectErrors(tag: string, diffs: seq<real>, matches: seq<Option<string>>, got: seq<string>)
      returns (r: Outcome<seq<string>>)
      ensures r == ErrorLines(tag, diffs, matches, got, |diffs|)
    {
      var lines: seq<string> := [];
      for i := 0 to |diffs|
        invariant ErrorLines(tag, diffs, matches, got, i) == Returned(lines)
      {
        if diffs[i] > 0.0 {
          var line := ErrorLine(tag, i, matches, got);
          if line.Raised? {
            ErrorLinesRaisedStays(tag, diffs, matches, got, i + 1, |diffs|);
            return Raised(line.error);
          }
          lines := lines + [line.value];
        }
      }
      r := Returned(lines);
    }

    method ComparisonResult(expected: Section, got: Section, diffs: seq<real>, matches: seq<Option<string>>)
      returns (err: Option<PyError>)
      modifies this
      ensures State() == OnComparison(old(State()), expected, got, diffs, matches).0
      ensures err == OnComparison(old(State()), expected, got, diffs, matches).1
    {
      err := None;
      if MaxDiff(diffs) == 0.0 {
        ReportSuccess(expected.tag);
      } else {
        err := ReportFailure(expected, got, diffs, matches);
        if err.Some? {
          return;
        }
      }
      if LevelEnabled(DebugLevel) {
        Messages(DebugLevel, DetailLines(expected.tag, matches, got.content));
      }
    }

    method ReportSuccess(tag: string)
      modifies this
      ensures State() == Passed(old(State()), tag)
    {
      sectResults := sectResults + [(tag, Ok)];
      if testStatus.None? {
        testStatus := Some(Ok);
      }
      Message(SuccessLevel, tag + ": OK");
    }

    method ReportFailure(expected: Section, got: Section, diffs: seq<real>, matches: seq<Option<string>>)
      returns (err: Option<PyError>)
      modifies this
      ensures State() == Failure(old(State()), expected, got, diffs, matches).0
      ensures err == Failure(old(State()), expected, got, diffs, matches).1
    {
      var tag := expected.tag;
      sectResults := sectResults + [(tag, Failed)];
      testStatus := Some(Failed);
      Messages(ErrorLevel, WrongCount(tag, |expected.content|, |got.content|));
      var lines := CollectErrors(tag, diffs, matches, got.content);
      if lines.Raised? {
        return Some(lines.error);
      }
      Messages(ErrorLevel, Capped(lines.value, maxerrors));
      Messages(WarningLevel, FirstMatched(tag, diffs, |got.content|));
      err := None;
    }

    method MissingSection(expected: Section)
      modifies this
      ensures State() == OnMissing(old(State()), expected)
    {
      if testStatus != Some(Ok) {
        testStatus := Some(Warned);
      }
      sectResults := sectResults + [(expected.tag, Warned)];
      Message(WarningLevel, expected.tag + ": " + "missing section");
    }

    /** The call an event stands for. */
    method Dispatch(e: Event) returns (err: Option<PyError>)
      modifies this
      ensures (State(), err) == Next(old(State()), e)
    {
      match e
      case BeginSession => BeginSession(); err := None;
      case EndSession => err := EndSession();
      case BeginTest(d, args, input, tmp) => BeginTest(d, args, input, tmp); err := None;
      case ExecutionResult(args, res, _) => err := ExecutionResult(args, res);
      case PlainExecutionResult(_, _) => err := Some(TypeError);
      case ComparisonResult(x, g, diffs, matches) => err := ComparisonResult(x, g, diffs, matches);
      case MissingSection(x) => MissingSection(x); err := None;
      case EndTest => EndTest(); err := None;
    }
  }

  // ---------------------------------------------------------------------
  // CombinedFormatter

  ghost function StatesOf(fs: seq<TextFormatter>): (r: seq<TextState>)
    reads fs
    ensures |r| == |fs| && forall k :: 0 <= k < |fs| ==> r[k] == fs[k].State()
  {
    if fs == [] then [] else [fs[0].State()] + StatesOf(fs[1..])
  }

  /** A formatter that forwards every call to each of the formatters it holds, in order. */
  class CombinedFormatter {
    const formatters: seq<TextFormatter>

    ghost predicate Distinct()
      reads this
    {
      forall i, j :: 0 <= i < j < |formatters| ==> formatters[i] != formatters[j]
    }

    constructor(fs: seq<TextFormatter>)
      ensures formatters == fs
    {
      formatters := fs;
    }

    /** The formatters from `i` on have not been touched since `before`; those before `i` took their step. */
    ghost predicate Forwarded(before: seq<TextState>, e: Event, i: nat)
      reads this, formatters
    {
      |before| == |formatters| && i <= |formatters| &&
      (forall k :: 0 <= k < i ==> formatters[k].State() == Next(before[k], e).0 && Next(before[k], e).1.None?) &&
      (forall k :: i <= k < |formatters| ==> formatters[k].State() == before[k])
    }

    /**
     * Forwards an event: the first `n` formatters take their step, and an
     * exception in formatter `n` leaves it at its step and the rest untouched.
     */
    method Forward(e: Event) returns (err: Option<PyError>, ghost n: nat)
      requires Distinct()
      modifies formatters
      ensures n <= |formatters| && (err.None? <==> n == |formatters|)
      ensures var before := old(StatesOf(formatters)); var after := StatesOf(formatters);
        (forall k :: 0 <= k < n ==> after[k] == Next(before[k], e).0 && Next(before[k], e).1.None?) &&
        (err.Some? ==> after[n] == Next(before[n], e).0 && err == Next(before[n], e).1) &&
        (forall k :: n < k < |formatters| ==> after[k] == before[k])
    {
      ghost var before := StatesOf(formatters);
      err := None;
      var i := 0;
      while i < |formatters|
        invariant err.None? && Forwarded(before, e, i)
      {
        err := ForwardOne(e, i, before);
        if err.Some? {
          n := i;
          return;
        }
        i := i + 1;
      }
      n := i;
    }

    /** The step of formatter `i`. */
    method ForwardOne(e: Event, i: nat, ghost before: seq<TextState>) returns (err: Option<PyError>)
      requires Distinct() && i < |formatters| && Forwarded(before, e, i)
      modifies formatters[i]
      ensures err == Next(before[i], e).1
      ensures err.None? ==> Forwarded(before, e, i + 1)
      ensures err.Some? ==>
        (forall k :: 0 <= k < i ==> formatters[k].State() == Next(before[k], e).0 && Next(before[k], e).1.None?) &&
        formatters[i].State() == Next(before[i], e).0 &&
        (forall k :: i < k < |formatters| ==> formatters[k].State() == before[k])
    {
      var f := formatters[i];
      ghost var s := f.State();
      err := f.Dispatch(e);
      forall k | 0 <= k < |formatters| && k != i
        ensures formatters[k].State() == old(formatters[k].State())
      {
        assert formatters[k] != f;
      }
      assert (f.State(), err) == Next(s, e);
    }
  }
}
