/**
 * The plain-text formatter of the older generation (src/formatter.py). It
 * keeps no counters and no test status: it only filters its messages by
 * verbosity. Its result table has no entry for an output-limited run, its
 * truncated sections show the count template without a count, and it has no
 * `end_session` or `end_test` method at all.
 */
module LegacyFormatter {
  import opened Common
  import opened Text
  import opened TestData
  import opened Match
  import opened Executor
  import opened Events
  import opened Formatter

  // ---------------------------------------------------------------------
  // Pure parts

  /** The template written in place of the count: `%d` is never substituted. */
  const PlusOtherTemplate := "(... plus other %d lines ...)"

  function LegacyShown(lines: seq<string>, maxlines: Option<nat>): (r: seq<string>)
    requires maxlines.None? || maxlines.value >= 1
    ensures maxlines.None? || |lines| <= maxlines.value ==> r == lines
    ensures maxlines.Some? && |lines| > maxlines.value ==>
      |r| == maxlines.value && r[..maxlines.value - 1] == lines[..maxlines.value - 1] &&
      r[maxlines.value - 1] == PlusOtherTemplate
  {
    if maxlines.Some? && |lines| > maxlines.value then
      var r := lines[..maxlines.value - 1] + [PlusOtherTemplate];
      assert r[..maxlines.value - 1] == lines[..maxlines.value - 1];
      r
    else lines
  }

  /** `_format_section` of the older formatter. */
  function LegacyFormatSection(title: string, content: string, maxlines: Option<nat>): (r: string)
    requires maxlines.None? || maxlines.value >= 1
    ensures |SplitLines(content)| <= 1 ==> r == FormatSection(title, content, maxlines)
    ensures |SplitLines(content)| > 1 ==>
      r == title + ":\n" + Join("\n", LegacyShown(RStripAll(SplitLines(content)), maxlines))
  {
    var lines := RStripAll(SplitLines(content));
    if |lines| == 0 then title + ": <empty>"
    else if |lines| == 1 then title + ": " + lines[0]
    else title + ":\n" + Join("\n", LegacyShown(lines, maxlines))
  }

  /** The two section formatters agree whenever no truncation happens. */
  lemma FormatSectionsAgree(title: string, content: string, maxlines: Option<nat>)
    requires maxlines.None? || maxlines.value >= 1
    requires maxlines.None? || |SplitLines(content)| <= maxlines.value
    ensures LegacyFormatSection(title, content, maxlines) == FormatSection(title, content, maxlines)
  {
    ShownAccounts(RStripAll(SplitLines(content)), maxlines);
  }

  /** `" ".join(args)`: every argument must be a string, so the placeholder raises. */
  function JoinWords(args: seq<Arg>): (r: Outcome<string>)
    ensures r.Raised? <==> TmpFile in args
    ensures r.Raised? ==> r.error == TypeError
    ensures r.Returned? ==> r.value == Join(" ", ProcArgs(args))
  {
    if TmpFile in args then Raised(TypeError) else Returned(Join(" ", ProcArgs(args)))
  }

  /** Sections are cut to 5 lines unless the verbosity is exactly DEBUG. */
  function LegacyMaxLines(v: int): (m: Option<nat>)
    ensures m.None? <==> v == DebugLevel
  {
    if v == DebugLevel then None else Some(5)
  }

  /** The message of a non-OK result, followed by an empty line; an output-limited run has no entry. */
  function LegacyResultMessage(r: ExecCode, progname: string, status: int): (m: Outcome<string>)
    ensures m.Raised? <==> r == ErOutputLimit
    ensures m.Raised? ==> m.error == KeyError
    ensures m.Returned? ==> (m.value == "" <==> r == ErOk)
    ensures m.Returned? && r != ErOk ==> m.value == ResultMessage(r, progname, status) + "\n"
  {
    if r == ErOutputLimit then Raised(KeyError)
    else if r == ErOk then Returned("")
    else Returned(ResultMessage(r, progname, status) + "\n")
  }

  /**
   * The "first lines matched" note as written: the count is computed as
   * `min(len(got))`, and `min` of an integer raises, so the note is never
   * written and raises exactly where it should be written.
   */
  function MatchedNoteAsWritten(tag: string, diffs: seq<real>, got: nat): (r: Outcome<seq<string>>)
    ensures r.Raised? ==> r.error == TypeError
    ensures r.Returned? ==> r.value == []
  {
    if got > 0 && diffs != [] && MaxDiff(diffs[..Min(got, |diffs|)]) == 0.0 then Raised(TypeError)
    else Returned([])
  }

  /** The note as written raises exactly when the intended note would be written. */
  lemma MatchedNoteRaises(tag: string, diffs: seq<real>, got: nat)
    ensures MatchedNoteAsWritten(tag, diffs, got).Raised? <==> FirstMatched(tag, diffs, got) != []
  {}

  /** Expected two lines, got the first one right: the as-written note raises. */
  lemma MatchedNoteCounterexample()
    ensures MatchedNoteAsWritten("A", [0.0, 1.0], 1) == Raised(TypeError)
    ensures FirstMatched("A", [0.0, 1.0], 1) == ["A: The first 1 lines matched correctly"]
  {
    assert Min(1, 2) == 1;
    assert [0.0, 1.0][..Min(1, 2)] == [0.0];
    assert MaxDiff([0.0]) == 0.0;
    assert MaxDiff([0.0, 1.0]) == 1.0 by {
      assert [0.0, 1.0][1..] == [1.0];
    }
    assert NatToString(1) == [DigitChar(1)] && DigitChar(1) == '1';
    assert IntToString(1) == "1";
    MatchedNoteText();
  }

  lemma MatchedNoteText()
    ensures "A" + ": " + "The first " + "1" + " lines matched correctly" == "A: The first 1 lines matched correctly"
  {}

  // ---------------------------------------------------------------------
  // State and transitions

  datatype LegacyState = LegacyState(verbosity: int, maxerrors: Option<int>, output: seq<string>)

  /** `begin_test`: the description, then the command line (which raises on the placeholder), input and file. */
  function LegacyOnBeginTest(s: LegacyState, description: Option<string>, args: seq<Arg>, input: string,
                             tempfile: Option<string>): (LegacyState, Option<PyError>)
  {
    var v := s.verbosity;
    var m := LegacyMaxLines(v);
    var desc := EmitAll(v, InfoLevel, DescriptionText(description, m));
    match JoinWords(args)
    case Raised(e) => (s.(output := s.output + desc), Some(e))
    case Returned(cmd) => (s.(output := s.output + desc + EmitAll(v, InfoLevel, CommandTexts(cmd, input, tempfile, m))), None)
  }

  function DescriptionText(description: Option<string>, m: Option<nat>): (r: seq<string>)
    requires m.None? || m.value >= 1
    ensures |r| == (if description.Some? then 1 else 0)
  {
    if description.Some? then [LegacyFormatSection("TEST", description.value, m)] else []
  }

  /** The command line, then the input and the temporary file when present. */
  function CommandTexts(cmd: string, input: string, tempfile: Option<string>, m: Option<nat>): (r: seq<string>)
    requires m.None? || m.value >= 1
    ensures |r| >= 1 && r[0] == LegacyFormatSection("COMMAND LINE", cmd, m)
    ensures |r| == 1 + (if Strip(input) != "" then 1 else 0) + (if tempfile.Some? then 1 else 0)
  {
    [LegacyFormatSection("COMMAND LINE", cmd, m)]
    + (if Strip(input) != "" then [LegacyFormatSection("INPUT", input, m)] else [])
    + (if tempfile.Some? then [LegacyFormatSection("TEMPORARY FILE", tempfile.value, m)] else [])
  }

  function LegacyOnExecution(s: LegacyState, args: seq<Arg>, res: ExecResult): (LegacyState, Option<PyError>)
  {
    if args == [] then (s, Some(IndexError))
    else
      match LegacyResultMessage(res.result, ProgName(args[0]), res.status)
      case Raised(e) => (s, Some(e))
      case Returned(msg) =>
        var v := s.verbosity;
        (s.(output := s.output + (if msg != "" then Emitted(v, ResultLevel(res.result), msg) else [])
                     + (if res.output != "" then
                          Emitted(v, DebugLevel, LegacyFormatSection("OUTPUT", Join("\n", Quoted(SplitLines(res.output))), None))
                        else [])), None)
  }

  /**
   * `comparison_result` as written: where the "first lines matched" note
   * is due, computing its count raises TypeError after the error lines.
   */
  function LegacyOnComparison(s: LegacyState, expected: Section, got: Section, diffs: seq<real>,
                              matches: seq<Option<string>>): (LegacyState, Option<PyError>)
  {
    var tag := expected.tag;
    var v := s.verbosity;
    var details := EmitAll(v, DebugLevel, DetailLines(tag, matches, got.content));
    if diffs == [] then (s, Some(ValueError))
    else if MaxDiff(diffs) == 0.0 then
      (s.(output := s.output + Emitted(v, SuccessLevel, tag + ": OK") + details), None)
    else
      var wrong := EmitAll(v, ErrorLevel, WrongCount(tag, |expected.content|, |got.content|));
      match ErrorLines(tag, diffs, matches, got.content, |diffs|)
      case Raised(e) => (s.(output := s.output + wrong), Some(e))
      case Returned(lines) =>
        var reported := s.output + wrong + EmitAll(v, ErrorLevel, Capped(lines, s.maxerrors));
        match MatchedNoteAsWritten(tag, diffs, |got.content|)
        case Raised(e) => (s.(output := reported), Some(e))
        case Returned(note) => (s.(output := reported + EmitAll(v, WarningLevel, note) + details), None)
  }

  function LegacyOnMissing(s: LegacyState, expected: Section): LegacyState {
    s.(output := s.output + Emitted(s.verbosity, WarningLevel, expected.tag + ": " + "missing section"))
  }

  /**
   * One call as a state transition. `begin_session` is the base class's
   * no-op; `end_session` and `end_test` do not exist, and the newer
   * three-argument `execution_result` call does not match the signature.
   */
  function LegacyNext(s: LegacyState, e: Event): (LegacyState, Option<PyError>)
  {
    match e
    case BeginSession => (s, None)
    case EndSession => (s, Some(AttributeError))
    case EndTest => (s, Some(AttributeError))
    case BeginTest(d, args, input, tmp) => LegacyOnBeginTest(s, d, args, input, tmp)
    case ExecutionResult(_, _, _) => (s, Some(TypeError))
    case PlainExecutionResult(args, res) => LegacyOnExecution(s, args, res)
    case ComparisonResult(x, g, diffs, matches) => LegacyOnComparison(s, x, g, diffs, matches)
    case MissingSection(x) => (LegacyOnMissing(s, x), None)
  }

  /** A section that compares perfectly writes the same messages in both generations. */
  lemma PerfectSectionAgrees(s: LegacyState, t: TextState, e: Event)
    requires e.ComparisonResult? && e.diffs != [] && MaxDiff(e.diffs) == 0.0
    requires t.verbosity == s.verbosity && t.output == s.output
    ensures LegacyNext(s, e).0.output == Next(t, e).0.output
    ensures LegacyNext(s, e).1 == Next(t, e).1 == None
  {}

  /**
   * A wrong section writes the same messages in both generations when no
   * "first lines matched" note is due. When one is due, the older formatter
   * raises TypeError where the newer one writes the note, and what it wrote
   * up to then is the newer formatter's output without the note and the
   * details.
   */
  lemma WrongSectionAgrees(s: LegacyState, t: TextState, e: Event)
    requires e.ComparisonResult? && MaxDiff(e.diffs) != 0.0
    requires t.verbosity == s.verbosity && t.output == s.output && t.maxerrors == s.maxerrors
    ensures FirstMatched(e.expected.tag, e.diffs, |e.got.content|) == [] ==>
      LegacyNext(s, e).0.output == Next(t, e).0.output && LegacyNext(s, e).1 == Next(t, e).1
    ensures (FirstMatched(e.expected.tag, e.diffs, |e.got.content|) != [] &&
             ErrorLines(e.expected.tag, e.diffs, e.matches, e.got.content, |e.diffs|).Returned?) ==>
        LegacyNext(s, e).1 == Some(TypeError) && Next(t, e).1 == None &&
        Next(t, e).0.output == LegacyNext(s, e).0.output
          + EmitAll(s.verbosity, WarningLevel, FirstMatched(e.expected.tag, e.diffs, |e.got.content|))
          + EmitAll(s.verbosity, DebugLevel, DetailLines(e.expected.tag, e.matches, e.got.content))
  {
    var tag := e.expected.tag;
    MatchedNoteRaises(tag, e.diffs, |e.got.content|);
    match ErrorLines(tag, e.diffs, e.matches, e.got.content, |e.diffs|)
    case Raised(_) =>
    case Returned(_) =>
  }

  /** The older formatter raises on an empty comparison, where the newer one reports success. */
  lemma EmptyDiffsRaise(s: LegacyState, x: Section, g: Section, matches: seq<Option<string>>)
    ensures LegacyNext(s, ComparisonResult(x, g, [], matches)).1 == Some(ValueError)
    ensures LegacyNext(s, ComparisonResult(x, g, [], matches)).0 == s
  {}

  // ---------------------------------------------------------------------
  // The formatter object

  class LegacyTextFormatter {
    const verbosity: int
    const maxerrors: Option<int>
    /** The messages written to the destination, each followed there by '\n'. */
    var output: seq<string>

    function State(): LegacyState
      reads this
    {
      LegacyState(verbosity, maxerrors, output)
    }

    constructor(verbosity: Option<int>, maxerrors: Option<int>)
      ensures State() == LegacyState(if verbosity.Some? then verbosity.value else InfoLevel, maxerrors, [])
    {
      this.verbosity := if verbosity.Some? then verbosity.value else InfoLevel;
      this.maxerrors := maxerrors;
      output := [];
    }

    /** `message(level, text)`: the text is written iff `verbosity >= level`. */
    method Message(level: int, text: string)
      modifies this
      ensures output == old(output) + Emitted(verbosity, level, text)
    {
      if verbosity >= level {
        output := output + [text];
      }
    }

    method Messages(level: int, texts: seq<string>)
      modifies this
      ensures output == old(output) + EmitAll(verbosity, level, texts)
    {
      for i := 0 to |texts|
        invariant output == old(output) + EmitAll(verbosity, level, texts[..i])
      {
        SnocSlice(texts, i);
        EmitAllSnoc(verbosity, level, texts[..i], texts[i]);
        Message(level, texts[i]);
      }
      assert texts[..|texts|] == texts;
    }

    /** `fatal(text)` calls a `_message` method the class does not have. */
    method Fatal(text: string) returns (err: Option<PyError>)
      ensures err == Some(AttributeError)
    {
      err := Some(AttributeError);
    }

    method BeginTest(description: Option<string>, args: seq<Arg>, input: string, tempfile: Option<string>)
      returns (err: Option<PyError>)
      modifies this
      ensures State() == LegacyOnBeginTest(old(State()), description, args, input, tempfile).0
      ensures err == LegacyOnBeginTest(old(State()), description, args, input, tempfile).1
    {
      var m := LegacyMaxLines(verbosity);
      Messages(InfoLevel, DescriptionText(description, m));
      var cmd := JoinWords(args);
      if cmd.Raised? {
        return Some(cmd.error);
      }
      Messages(InfoLevel, CommandTexts(cmd.value, input, tempfile, m));
      err := None;
    }

    method ExecutionResult(args: seq<Arg>, res: ExecResult) returns (err: Option<PyError>)
      modifies this
      ensures State() == LegacyOnExecution(old(State()), args, res).0
      ensures err == LegacyOnExecution(old(State()), args, res).1
    {
      if args == [] {
        return Some(IndexError);
      }
      var msg := LegacyResultMessage(res.result, ProgName(args[0]), res.status);
      if msg.Raised? {
        return Some(msg.error);
      }
      if msg.value != "" {
        Message(ResultLevel(res.result), msg.value);
      }
      if res.output != "" && verbosity >= DebugLevel {
        Message(DebugLevel, LegacyFormatSection("OUTPUT", Join("\n", Quoted(SplitLines(res.output))), None));
      }
      err := None;
    }

    method ComparisonResult(expected: Section, got: Section, diffs: seq<real>, matches: seq<Option<string>>)
      returns (err: Option<PyError>)
      modifies this
      ensures State() == LegacyOnComparison(old(State()), expected, got, diffs, matches).0
      ensures err == LegacyOnComparison(old(State()), expected, got, diffs, matches).1
    {
      ghost var s := State();
      var tag := expected.tag;
      if diffs == [] {
        return Some(ValueError);
      }
      if MaxDiff(diffs) == 0.0 {
        Message(SuccessLevel, tag + ": OK");
      } else {
        Messages(ErrorLevel, WrongCount(tag, |expected.content|, |got.content|));
        ghost var wrong := output;
        var lines := TextFormatter.CollectErrors(tag, diffs, matches, got.content);
        if lines.Raised? {
          assert LegacyOnComparison(s, expected, got, diffs, matches) == (s.(output := wrong), Some(lines.error));
          return Some(lines.error);
        }
        Messages(ErrorLevel, Capped(lines.value, maxerrors));
        var note := MatchedNoteAsWritten(tag, diffs, |got.content|);
        if note.Raised? {
          assert LegacyOnComparison(s, expected, got, diffs, matches) == (State(), Some(note.error));
          return Some(note.error);
        }
        assert EmitAll(verbosity, WarningLevel, note.value) == [];
      }
      ghost var reported := output;
      if verbosity >= DebugLevel {
        Messages(DebugLevel, DetailLines(tag, matches, got.content));
      }
      assert output == reported + EmitAll(verbosity, DebugLevel, DetailLines(tag, matches, got.content));
      err := None;
    }

    method MissingSection(expected: Section)
      modifies this
      ensures State() == LegacyOnMissing(old(State()), expected)
    {
      Message(WarningLevel, expected.tag + ": " + "missing section");
    }

    /** The call an event stands for. */
    method Dispatch(e: Event) returns (err: Option<PyError>)
      modifies this
      ensures State() == LegacyNext(old(State()), e).0 && err == LegacyNext(old(State()), e).1
    {
      match e
      case BeginSession => err := None;
      case EndSession => err := Some(AttributeError);
      case EndTest => err := Some(AttributeError);
      case BeginTest(d, args, input, tmp) => err := BeginTest(d, args, input, tmp);
      case ExecutionResult(_, _, _) => err := Some(TypeError);
      case PlainExecutionResult(args, res) => err := ExecutionResult(args, res);
      case ComparisonResult(x, g, diffs, matches) => err := ComparisonResult(x, g, diffs, matches);
      case MissingSection(x) => MissingSection(x); err := None;
    }
  }
}
