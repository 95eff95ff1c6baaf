/**
 * The formatter that builds a JSON document (pvcheck/jsonformatter.py) and
 * its older variant (src/jsonformatter.py). The document is modelled as
 * values — a session header, one record per test and an ordered map of
 * section entries per test — rather than as JSON text; the clock and the
 * working directory are inputs.
 *
 * The formatter keeps the section map of the last executed test in a field
 * of its own, and the test record holds that very map: later comparisons
 * update both. `Holds` states that aliasing as an invariant.
 */
module Json {
  import opened Common
  import opened Text
  import opened TestData
  import opened Match
  import opened Executor
  import opened Events
  import opened OrderedMap
  import Formatter

  const JsonFormatVersion := "2.2.0"
  const LegacyJsonFormatVersion := "2.1.0"

  /** One entry of `wrong_lines`: the position, the generated line and the expected one, when present. */
  datatype WrongLine = WrongLine(n: nat, got: Option<string>, expected: Option<string>)

  /** The value stored for a section. */
  datatype SectionEntry =
    | ExecErrorEntry
    | MissingEntry
    | Compared(ok: bool, expected: seq<string>, generated: seq<string>, wrongLines: seq<WrongLine>, difference: real)

  type SectionMap = seq<(string, SectionEntry)>

  datatype ExecRecord = ExecRecord(returnCode: int, errorMessage: string, output: string)

  datatype TestRecord = TestRecord(title: Option<string>, commandLine: seq<string>, inputText: string,
                                   fileText: Option<string>, inputFileName: Option<string>,
                                   exec: Option<ExecRecord>, sections: Option<SectionMap>)

  datatype Header = Header(createdAt: string, version: string, workingDirectory: string, testFile: string)

  /** What `end_session` dumps: the session object with its tests, or `null` before any session. */
  datatype Document = Document(header: Header, tests: seq<TestRecord>)

  // ---------------------------------------------------------------------
  // Pure parts

  /** The path of the test file: the working directory joined with the given name or "pvcheck.test". */
  function TestFilePath(workDir: string, testFile: Option<string>): (r: string)
    ensures StartsWith(r, workDir + "/")
  {
    workDir + "/" + (if testFile.Some? then testFile.value else "pvcheck.test")
  }

  /** The message stored for an execution result. */
  function JsonMessage(r: ExecCode, progname: string, status: int): (m: string)
    ensures r == ErOk <==> m == "ok"
    ensures r != ErOk ==> m == Formatter.ResultMessage(r, progname, status)
  {
    if r == ErOk then "ok" else Formatter.ResultMessage(r, progname, status)
  }

  /** The test record `begin_test` appends. */
  function NewTest(description: Option<string>, args: seq<Arg>, input: string, tempfile: Option<string>): (t: TestRecord)
    ensures t.inputFileName.None? <==> tempfile.None?
    ensures |t.commandLine| == |args| && forall k :: 0 <= k < |args| ==> t.commandLine[k] == Formatter.ShownArg(args[k])
    ensures t.exec.None? && t.sections.None?
  {
    TestRecord(description, Formatter.ProcArgs(args), input, tempfile, if tempfile.None? then None else Some("<temp.file>"), None, None)
  }

  /** The entries marking the sections of `regular` as not run, in order of first appearance. */
  function ExecErrors(regular: seq<Section>): (m: SectionMap)
  {
    if regular == [] then []
    else Put(ExecErrors(regular[..|regular| - 1]), regular[|regular| - 1].tag, ExecErrorEntry)
  }

  /** Every regular section is marked "exec_error", each tag once, in order of first appearance. */
  lemma {:induction false} ExecErrorsShape(regular: seq<Section>)
    ensures Keys(ExecErrors(regular)) == Dedup(Tags(regular))
    ensures DistinctKeys(ExecErrors(regular))
    ensures forall t :: t in Keys(ExecErrors(regular)) ==> Get(ExecErrors(regular), t) == Some(ExecErrorEntry)
  {
    if regular != [] {
      var init := regular[..|regular| - 1];
      var s := regular[|regular| - 1];
      ExecErrorsShape(init);
      PutDistinct(ExecErrors(init), s.tag, ExecErrorEntry);
      TagsSnoc(regular);
    }
  }

  /** The `wrong_lines` of a comparison: one entry per position with a positive difference. */
  function WrongLines(diffs: seq<real>, got: seq<string>, matches: seq<Option<string>>): (r: seq<WrongLine>)
    ensures var w := Formatter.Wrong(diffs, |diffs|);
      |r| == |w| && forall k :: 0 <= k < |w| ==> r[k].n == w[k]
  {
    var w := Formatter.Wrong(diffs, |diffs|);
    seq(|w|, k requires 0 <= k < |w| =>
      WrongLine(w[k], if w[k] < |got| then Some(got[w[k]]) else None,
                if w[k] < |matches| then matches[w[k]] else None))
  }

  /**
   * `wrong_lines` lists, in ascending order, exactly the positions whose
   * difference is positive, each with the generated line (none past the end)
   * and the matching expected line.
   */
  lemma WrongLinesExact(diffs: seq<real>, got: seq<string>, matches: seq<Option<string>>)
    ensures var r := WrongLines(diffs, got, matches);
      (forall i :: 0 <= i < |diffs| ==> (diffs[i] > 0.0 <==> exists k :: 0 <= k < |r| && r[k].n == i)) &&
      (forall j, k :: 0 <= j < k < |r| ==> r[j].n < r[k].n) &&
      (forall k :: 0 <= k < |r| ==>
         r[k].n < |diffs| && diffs[r[k].n] > 0.0 &&
         r[k].got == (if r[k].n < |got| then Some(got[r[k].n]) else None) &&
         r[k].expected == (if r[k].n < |matches| then matches[r[k].n] else None))
  {
    var r := WrongLines(diffs, got, matches);
    var w := Formatter.Wrong(diffs, |diffs|);
    Formatter.WrongShape(diffs, |diffs|);
    forall i | 0 <= i < |diffs| && diffs[i] > 0.0 ensures exists k :: 0 <= k < |r| && r[k].n == i {
      var k :| 0 <= k < |w| && w[k] == i;
      assert r[k].n == i;
    }
  }

  /**
   * The entry `comparison_result` stores, or the `TypeError` of comparing a
   * missing difference with 0 when `got` or `matches` is longer than `diffs`.
   */
  function ComparedEntry(expected: Section, got: Section, diffs: seq<real>, matches: seq<Option<string>>): (r: Outcome<SectionEntry>)
    ensures r.Raised? <==> |got.content| > |diffs| || |matches| > |diffs|
    ensures r.Returned? ==> r.value.Compared? && (r.value.ok <==> MaxDiff(diffs) == 0.0)
  {
    if |got.content| > |diffs| || |matches| > |diffs| then Raised(TypeError)
    else Returned(Compared(MaxDiff(diffs) == 0.0, expected.content, got.content, WrongLines(diffs, got.content, matches), Sum(diffs)))
  }

  /** With non-negative differences, a section is "ok" iff it has no wrong line. */
  lemma OkIffNoWrongLines(expected: Section, got: Section, diffs: seq<real>, matches: seq<Option<string>>)
    requires forall i :: 0 <= i < |diffs| ==> diffs[i] >= 0.0
    requires ComparedEntry(expected, got, diffs, matches).Returned?
    ensures var c := ComparedEntry(expected, got, diffs, matches).value;
      c.ok <==> c.wrongLines == []
  {
    MaxDiffZero(diffs);
    WrongLinesEmpty(diffs, got.content, matches);
  }

  /** No line is reported wrong exactly when no difference is positive. */
  lemma WrongLinesEmpty(diffs: seq<real>, got: seq<string>, matches: seq<Option<string>>)
    ensures WrongLines(diffs, got, matches) == [] <==> forall i :: 0 <= i < |diffs| ==> diffs[i] <= 0.0
  {
    var r := WrongLines(diffs, got, matches);
    WrongLinesExact(diffs, got, matches);
    if r != [] {
      assert diffs[r[0].n] > 0.0;
    } else {
      forall i | 0 <= i < |diffs| ensures diffs[i] <= 0.0 {
        assert !exists k :: 0 <= k < |r| && r[k].n == i;
      }
    }
  }

  // ---------------------------------------------------------------------
  // State and transitions

  datatype JsonState = JsonState(version: string, workDir: string, testFile: string,
                                 header: Option<Header>, tests: seq<TestRecord>,
                                 sections: Option<SectionMap>, holder: Option<nat>,
                                 written: seq<Option<Document>>)

  /** The current section map is the one the record of test `holder` holds. */
  ghost predicate Holds(s: JsonState) {
    s.holder.Some? ==> s.holder.value < |s.tests| && s.sections.Some? && s.tests[s.holder.value].sections == s.sections
  }

  /** `begin_session`: a fresh test list, which the new session object shares. */
  function OnBeginSession(s: JsonState, now: string): JsonState {
    s.(tests := [], header := Some(Header(now, s.version, s.workDir, s.testFile)), holder := None)
  }

  function OnEndSession(s: JsonState): JsonState {
    s.(written := s.written + [if s.header.Some? then Some(Document(s.header.value, s.tests)) else None])
  }

  function OnBeginTest(s: JsonState, description: Option<string>, args: seq<Arg>, input: string,
                       tempfile: Option<string>): JsonState {
    s.(tests := s.tests + [NewTest(description, args, input, tempfile)])
  }

  /**
   * `execution_result`: the last test gets its return code, message and
   * output and a fresh section map, which (when `prefill` is set and the
   * run failed) marks every regular section "exec_error".
   */
  function OnExecution(s: JsonState, args: seq<Arg>, res: ExecResult, regular: seq<Section>, prefill: bool): (JsonState, Option<PyError>)
  {
    if s.tests == [] || args == [] then (s, Some(IndexError))
    else
      var last := |s.tests| - 1;
      var m := if prefill && res.result != ErOk then ExecErrors(regular) else [];
      var rec := ExecRecord(res.status, JsonMessage(res.result, Formatter.ProgName(args[0]), res.status), res.output);
      (s.(tests := s.tests[last := s.tests[last].(exec := Some(rec), sections := Some(m))],
          sections := Some(m), holder := Some(last)), None)
  }

  /** Stores `entry` for `tag` in the current map, and so in the record that holds it. */
  function Store(s: JsonState, tag: string, entry: SectionEntry): JsonState
    requires s.sections.Some? && Holds(s)
  {
    var m := Put(s.sections.value, tag, entry);
    if s.holder.Some? then s.(sections := Some(m), tests := s.tests[s.holder.value := s.tests[s.holder.value].(sections := Some(m))])
    else s.(sections := Some(m))
  }

  /** `comparison_result`; before any execution result there is no map to store into. */
  function OnComparison(s: JsonState, expected: Section, got: Section, diffs: seq<real>,
                        matches: seq<Option<string>>): (JsonState, Option<PyError>)
    requires Holds(s)
  {
    if s.sections.None? then (s, Some(AttributeError))
    else
      match ComparedEntry(expected, got, diffs, matches)
      case Raised(e) => (s, Some(e))
      case Returned(entry) => (Store(s, expected.tag, entry), None)
  }

  function OnMissing(s: JsonState, expected: Section): (JsonState, Option<PyError>)
    requires Holds(s)
  {
    if s.sections.None? then (s, Some(AttributeError)) else (Store(s, expected.tag, MissingEntry), None)
  }

  /** One call of the newer formatter; the older two-argument `execution_result` is a `TypeError`. */
  function Next(s: JsonState, e: Event, now: string): (JsonState, Option<PyError>)
    requires Holds(s)
  {
    match e
    case BeginSession => (OnBeginSession(s, now), None)
    case EndSession => (OnEndSession(s), None)
    case BeginTest(d, args, input, tmp) => (OnBeginTest(s, d, args, input, tmp), None)
    case ExecutionResult(args, res, regular) => OnExecution(s, args, res, regular, true)
    case PlainExecutionResult(_, _) => (s, Some(TypeError))
    case ComparisonResult(x, g, diffs, matches) => OnComparison(s, x, g, diffs, matches)
    case MissingSection(x) => OnMissing(s, x)
    case EndTest => (s, None)
  }

  /**
   * One call of the older formatter: its `execution_result` takes no test
   * and never marks sections "exec_error"; the newer three-argument call is
   * a `TypeError`, and `end_test`, which neither it nor its base class
   * defines, an `AttributeError`.
   */
  function LegacyNext(s: JsonState, e: Event, now: string): (JsonState, Option<PyError>)
    requires Holds(s)
  {
    match e
    case ExecutionResult(_, _, _) => (s, Some(TypeError))
    case PlainExecutionResult(args, res) => OnExecution(s, args, res, [], false)
    case EndTest => (s, Some(AttributeError))
    case _ => Next(s, e, now)
  }

  lemma StorePreserves(s: JsonState, tag: string, entry: SectionEntry)
    requires s.sections.Some? && Holds(s)
    ensures Holds(Store(s, tag, entry))
    ensures Get(Store(s, tag, entry).sections.value, tag) == Some(entry)
    ensures |Store(s, tag, entry).tests| == |s.tests|
  {}

  /** Every call keeps the current map and the record holding it the same map. */
  lemma NextHolds(s: JsonState, e: Event, now: string)
    requires Holds(s)
    ensures Holds(Next(s, e, now).0) && Holds(LegacyNext(s, e, now).0)
  {}

  /**
   * A later event for the same tag overwrites the entry, and an entry for a
   * different tag is left alone.
   */
  lemma LaterEntryWins(s: JsonState, x: Section, y: Section)
    requires Holds(s) && s.sections.Some?
    ensures var s1 := OnMissing(s, x).0;
      Holds(s1) && s1.sections.Some? &&
      Get(OnMissing(s1, y).0.sections.value, y.tag) == Some(MissingEntry) &&
      (x.tag != y.tag ==> Get(OnMissing(s1, y).0.sections.value, x.tag) == Some(MissingEntry))
  {}

  /** After a failed run every regular section is "exec_error" in the newer formatter and absent in the older. */
  lemma FailedRunEntries(s: JsonState, args: seq<Arg>, res: ExecResult, regular: seq<Section>, now: string)
    requires Holds(s) && s.tests != [] && args != [] && res.result != ErOk
    ensures var n := Next(s, ExecutionResult(args, res, regular), now).0;
      Keys(n.sections.value) == Dedup(Tags(regular)) &&
      forall t :: t in Keys(n.sections.value) ==> Get(n.sections.value, t) == Some(ExecErrorEntry)
    ensures LegacyNext(s, PlainExecutionResult(args, res), now).0.sections == Some([])
  {
    assert Next(s, ExecutionResult(args, res, regular), now).0.sections == Some(ExecErrors(regular)) by {
      assert Next(s, ExecutionResult(args, res, regular), now) == OnExecution(s, args, res, regular, true);
    }
    assert LegacyNext(s, PlainExecutionResult(args, res), now) == OnExecution(s, args, res, [], false);
    ExecErrorsShape(regular);
  }

  /** The two generations agree on everything but the execution call, `end_test` and the version they stamp. */
  lemma GenerationsAgree(s: JsonState, e: Event, now: string)
    requires Holds(s) && !e.ExecutionResult? && !e.PlainExecutionResult? && !e.EndTest?
    ensures LegacyNext(s, e, now) == Next(s, e, now)
  {}

  /** On a successful run both generations start the same empty section map. */
  lemma SuccessfulRunAgrees(s: JsonState, args: seq<Arg>, res: ExecResult, regular: seq<Section>, now: string)
    requires Holds(s) && res.result == ErOk
    ensures LegacyNext(s, PlainExecutionResult(args, res), now) == Next(s, ExecutionResult(args, res, regular), now)
  {}

  /** The dumped session lists exactly the tests begun since the session began, in order. */
  lemma SessionSharesTests(s: JsonState, now: string, d: Option<string>, args: seq<Arg>, input: string, tmp: Option<string>)
    requires Holds(s)
    ensures var s1 := OnBeginTest(OnBeginSession(s, now), d, args, input, tmp);
      OnEndSession(s1).written == s.written + [Some(Document(Header(now, s.version, s.workDir, s.testFile),
                                                             [NewTest(d, args, input, tmp)]))]
  {
    assert [] + [NewTest(d, args, input, tmp)] == [NewTest(d, args, input, tmp)];
  }

  // ---------------------------------------------------------------------
  // The formatter object

  class JsonFormatter {
    const version: string
    const workDir: string
    const testFile: string
    var header: Option<Header>
    var tests: seq<TestRecord>
    var sections: Option<SectionMap>
    var holder: Option<nat>
    /** The documents dumped so far, one per `end_session`. */
    var written: seq<Option<Document>>

    function State(): JsonState
      reads this
    {
      JsonState(version, workDir, testFile, header, tests, sections, holder, written)
    }

    ghost predicate Valid()
      reads this
    {
      Holds(State())
    }

    /** `JSONFormatter(destination, indent, test_file)` in working directory `workDir`. */
    constructor(workDir: string, testFile: Option<string>, version: string)
      ensures State() == JsonState(version, workDir, TestFilePath(workDir, testFile), None, [], None, None, [])
      ensures Valid()
    {
      this.version := version;
      this.workDir := workDir;
      this.testFile := TestFilePath(workDir, testFile);
      header := None;
      tests := [];
      sections := None;
      holder := None;
      written := [];
    }

    method BeginSession(now: string)
      requires Valid()
      modifies this
      ensures State() == OnBeginSession(old(State()), now) && Valid()
    {
      tests := [];
      holder := None;
      header := Some(Header(now, version, workDir, testFile));
    }

    method EndSession()
      requires Valid()
      modifies this
      ensures State() == OnEndSession(old(State())) && Valid()
    {
      written := written + [if header.Some? then Some(Document(header.value, tests)) else None];
    }

    method BeginTest(description: Option<string>, args: seq<Arg>, input: string, tempfile: Option<string>)
      requires Valid()
      modifies this
      ensures State() == OnBeginTest(old(State()), description, args, input, tempfile) && Valid()
    {
      tests := tests + [NewTest(description, args, input, tempfile)];
    }

    /** The "exec_error" entries, one assignment per regular section. */
    static method MarkNotRun(regular: seq<Section>) returns (m: SectionMap)
      ensures m == ExecErrors(regular)
    {
      m := [];
      for i := 0 to |regular|
        invariant m == ExecErrors(regular[..i])
      {
        SnocSlice(regular, i);
        assert regular[..i + 1][..i] == regular[..i];
        m := Put(m, regular[i].tag, ExecErrorEntry);
      }
      assert regular[..|regular|] == regular;
    }

    /** `execution_result`; `prefill` is false for the older formatter. */
    method ExecutionResult(args: seq<Arg>, res: ExecResult, regular: seq<Section>, prefill: bool)
      returns (err: Option<PyError>)
      requires Valid()
      modifies this
      ensures State() == OnExecution(old(State()), args, res, regular, prefill).0 && Valid()
      ensures err == OnExecution(old(State()), args, res, regular, prefill).1
    {
      if tests == [] || args == [] {
        return Some(IndexError);
      }
      var last := |tests| - 1;
      var rec := ExecRecord(res.status, JsonMessage(res.result, Formatter.ProgName(args[0]), res.status), res.output);
      var m: SectionMap := [];
      if prefill && res.result != ErOk {
        m := MarkNotRun(regular);
      }
      tests := tests[last := tests[last].(exec := Some(rec), sections := Some(m))];
      sections := Some(m);
      holder := Some(last);
      err := None;
    }

    /** `self._sections[tag] = entry`. */
    method Assign(tag: string, entry: SectionEntry)
      requires Valid() && sections.Some?
      modifies this
      ensures State() == Store(old(State()), tag, entry) && Valid()
    {
      StorePreserves(State(), tag, entry);
      var m := Put(sections.value, tag, entry);
      sections := Some(m);
      if holder.Some? {
        tests := tests[holder.value := tests[holder.value].(sections := Some(m))];
      }
    }

    method ComparisonResult(expected: Section, got: Section, diffs: seq<real>, matches: seq<Option<string>>)
      returns (err: Option<PyError>)
      requires Valid()
      modifies this
      ensures State() == OnComparison(old(State()), expected, got, diffs, matches).0 && Valid()
      ensures err == OnComparison(old(State()), expected, got, diffs, matches).1
    {
      if sections.None? {
        return Some(AttributeError);
      }
      var entry := ComparedEntry(expected, got, diffs, matches);
      if entry.Raised? {
        return Some(entry.error);
      }
      Assign(expected.tag, entry.value);
      err := None;
    }

    method MissingSection(expected: Section) returns (err: Option<PyError>)
      requires Valid()
      modifies this
      ensures State() == OnMissing(old(State()), expected).0 && Valid()
      ensures err == OnMissing(old(State()), expected).1
    {
      if sections.None? {
        return Some(AttributeError);
      }
      Assign(expected.tag, MissingEntry);
      err := None;
    }

    /** The call an event stands for, in the newer (`legacy` false) or the older formatter. */
    method Dispatch(e: Event, now: string, legacy: bool) returns (err: Option<PyError>)
      requires Valid()
      modifies this
      ensures !legacy ==> State() == Next(old(State()), e, now).0 && err == Next(old(State()), e, now).1
      ensures legacy ==> State() == LegacyNext(old(State()), e, now).0 && err == LegacyNext(old(State()), e, now).1
      ensures Valid()
    {
      match e
      case BeginSession => BeginSession(now); err := None;
      case EndSession => EndSession(); err := None;
      case BeginTest(d, args, input, tmp) => BeginTest(d, args, input, tmp); err := None;
      case ExecutionResult(args, res, regular) =>
        if legacy {
          err := Some(TypeError);
        } else {
          err := ExecutionResult(args, res, regular, true);
        }
      case PlainExecutionResult(args, res) =>
        if legacy {
          err := ExecutionResult(args, res, [], false);
        } else {
          err := Some(TypeError);
        }
      case ComparisonResult(x, g, diffs, matches) => err := ComparisonResult(x, g, diffs, matches);
      case MissingSection(x) => err := MissingSection(x);
      case EndTest => err := if legacy then Some(AttributeError) else None;
    }
  }
}
