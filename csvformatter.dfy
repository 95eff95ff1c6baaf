/**
 * The CSV formatter of the newer generation: one row per test with the
 * test's status code and, per section, the percentage of correct lines,
 * then a row holding each section's mean over the tests that have it.
 */
module Csv {
  import opened Common
  import opened TestData
  import opened Executor
  import opened Events
  import opened OrderedMap

  /**
   * A field of a written row: text, a number written with two decimals
   * (`'%.2f'`), or a float written by `str`.
   */
  datatype Cell = Text(text: string) | Fixed2(x: real) | Float(x: real)

  /** The "equality" of a section: a percentage of correct lines, "0" for a section of a failed run, or "MISS". */
  datatype Equality = Percent(value: real) | NotRun | Miss

  type Sections = seq<(string, Equality)>

  /** A test record: its title, then the status code and the sections `execution_result` sets. */
  datatype CsvTest = CsvTest(title: Option<string>, status: Option<string>, sections: Option<Sections>)

  const TestHead := "TEST"
  const CodeHead := "CODE"

  /** `_RESULT_TABLE`, which has no entry for an output over the limit. */
  function StatusCode(r: ExecCode): (c: Option<string>)
    ensures c.None? <==> r == ErOutputLimit
    ensures c == Some("0") <==> r == ErOk
  {
    match r
    case ErOk => Some("0")
    case ErTimeout => Some("1")
    case ErSegfault => Some("2")
    case ErError => Some("3")
    case ErNotFile => Some("4")
    case ErOutputLimit => None
  }

  /** Different results that have a code get different codes. */
  lemma StatusCodesDistinct(r1: ExecCode, r2: ExecCode)
    requires r1 != r2 && StatusCode(r1).Some? && StatusCode(r2).Some?
    ensures StatusCode(r1) != StatusCode(r2)
  {
    match r1
    case ErOk =>
    case ErTimeout =>
    case ErSegfault =>
    case ErError =>
    case ErNotFile =>
  }

  /** The "equality" string as the writer puts it in the row. */
  function EqualityCell(e: Equality): Cell {
    match e
    case Percent(x) => Fixed2(x)
    case NotRun => Text("0")
    case Miss => Text("MISS")
  }

  /** `float(equality)`, with 0 for "MISS". */
  function EqualityValue(e: Equality): real {
    match e
    case Percent(x) => x
    case NotRun => 0.0
    case Miss => 0.0
  }

  /** The percentage of correct lines of a comparison; 100 when there are no lines. */
  function PercentCorrect(diffs: seq<real>): real {
    if |diffs| != 0 then ((|diffs| as real - Sum(diffs)) * 100.0) / (|diffs| as real) else 100.0
  }

  /** With differences between 0 and 1 the percentage is between 0 and 100, and 100 exactly when no line differs. */
  lemma PercentRange(diffs: seq<real>)
    requires forall i :: 0 <= i < |diffs| ==> 0.0 <= diffs[i] <= 1.0
    ensures 0.0 <= PercentCorrect(diffs) <= 100.0
    ensures PercentCorrect(diffs) == 100.0 <==> forall i :: 0 <= i < |diffs| ==> diffs[i] == 0.0
  {
    SumBounds(diffs, 0.0, 1.0);
    SumZero(diffs);
    if |diffs| != 0 {
      var n := |diffs| as real;
      var p := PercentCorrect(diffs);
      assert p * n == (n - Sum(diffs)) * 100.0;
      assert p == 100.0 <==> Sum(diffs) == 0.0;
    }
  }

  // ---------------------------------------------------------------------
  // The header

  /** The section names of the tests, test by test, each test's in its own order. */
  function SectionNames(tests: seq<CsvTest>): seq<string> {
    if tests == [] then []
    else
      var t := tests[|tests| - 1];
      SectionNames(tests[..|tests| - 1]) + (if t.sections.Some? then Keys(t.sections.value) else [])
  }

  predicate AllExecuted(tests: seq<CsvTest>) {
    forall i :: 0 <= i < |tests| ==> tests[i].sections.Some?
  }

  /**
   * `_header_builder`: "TEST", "CODE", then every section name not yet in
   * the header; `test["sections"]` raises for a test that has no sections.
   */
  function HeaderOf(tests: seq<CsvTest>): Outcome<seq<string>> {
    if AllExecuted(tests) then Returned(Dedup([TestHead, CodeHead] + SectionNames(tests))) else Raised(KeyError)
  }

  /** A test without sections makes the header raise. */
  lemma HeaderRaises(tests: seq<CsvTest>, i: nat)
    requires i < |tests| && tests[i].sections.None?
    ensures HeaderOf(tests) == Raised(KeyError)
  {
    assert !AllExecuted(tests);
  }

  /** One more executed test appends its section names to the candidate names. */
  lemma HeaderStep(tests: seq<CsvTest>, i: nat)
    requires i < |tests| && tests[i].sections.Some? && AllExecuted(tests[..i])
    ensures AllExecuted(tests[..i + 1])
    ensures [TestHead, CodeHead] + SectionNames(tests[..i + 1]) ==
            [TestHead, CodeHead] + SectionNames(tests[..i]) + Keys(tests[i].sections.value)
  {
    assert tests[..i + 1][..i] == tests[..i];
    AppendAssoc([TestHead, CodeHead], SectionNames(tests[..i]), Keys(tests[i].sections.value));
  }

  lemma DedupHeads()
    ensures Dedup([TestHead, CodeHead]) == [TestHead, CodeHead]
  {
    var tc := [TestHead, CodeHead];
    assert tc[..1] == [TestHead] && [TestHead][..0] == [];
    assert Dedup([TestHead]) == [TestHead];
  }

  /** "TEST" heads the first column only and "CODE" the second only. */
  predicate HeadsOnce(h: seq<string>) {
    |h| >= 2 && h[0] == TestHead && h[1] == CodeHead && TestHead !in h[1..] && CodeHead !in h[2..]
  }

  /**
   * The header starts with "TEST" and "CODE", names each column once, and
   * names exactly those two and the section names of the tests.
   */
  lemma HeaderShape(tests: seq<CsvTest>)
    requires AllExecuted(tests)
    ensures var h := HeaderOf(tests).value;
      HeadsOnce(h) &&
      (forall i, j :: 0 <= i < j < |h| ==> h[i] != h[j]) &&
      (forall x :: x in h <==> x == TestHead || x == CodeHead || x in SectionNames(tests))
  {
    DedupHeads();
    DedupExtends([TestHead, CodeHead], SectionNames(tests));
    var h := HeaderOf(tests).value;
    assert h[..2] == [TestHead, CodeHead];
    assert forall j :: 1 <= j < |h| ==> h[j] != h[0];
    assert forall j :: 2 <= j < |h| ==> h[j] != h[1];
  }

  // ---------------------------------------------------------------------
  // The rows

  /** The field of column `el`: the status code under "CODE", else the section's "equality" or nothing. */
  function ColumnCell(t: CsvTest, el: string): Cell
    requires t.status.Some?
  {
    if el == CodeHead then Text(t.status.value)
    else if t.sections.Some? && Get(t.sections.value, el).Some? then EqualityCell(Get(t.sections.value, el).value)
    else Text("")
  }

  /** The fields after the title, one per column but "TEST". */
  function Cells(t: CsvTest, header: seq<string>): seq<Cell>
    requires t.status.Some?
  {
    if header == [] then []
    else
      var prev := Cells(t, header[..|header| - 1]);
      var el := header[|header| - 1];
      if el == TestHead then prev else prev + [ColumnCell(t, el)]
  }

  /** `csv.writer` writes `None` as an empty field. */
  function TitleCell(title: Option<string>): Cell {
    Text(if title.Some? then title.value else "")
  }

  /** `_row_builder` for a test that has its status code. */
  function RowOf(t: CsvTest, header: seq<string>): seq<Cell>
    requires t.status.Some?
  {
    [TitleCell(t.title)] + Cells(t, header)
  }

  lemma {:induction false} CellsColumns(t: CsvTest, h: seq<string>)
    requires t.status.Some? && |h| >= 1 && h[0] == TestHead && TestHead !in h[1..]
    ensures |Cells(t, h)| == |h| - 1
    ensures forall j :: 1 <= j < |h| ==> Cells(t, h)[j - 1] == ColumnCell(t, h[j])
  {
    if |h| == 1 {
      assert h[..0] == [];
    } else {
      var h' := h[..|h| - 1];
      assert h'[1..] == h[1..|h| - 1];
      assert h[|h| - 1] in h[1..];
      CellsColumns(t, h');
    }
  }

  /** A row has one field per column: the title under "TEST", the code under "CODE", then the sections. */
  lemma RowShape(t: CsvTest, h: seq<string>)
    requires t.status.Some? && HeadsOnce(h)
    ensures var r := RowOf(t, h);
      |r| == |h| && r[0] == TitleCell(t.title) && r[1] == Text(t.status.value) &&
      forall j :: 2 <= j < |h| ==> r[j] == ColumnCell(t, h[j])
  {
    CellsColumns(t, h);
  }

  // ---------------------------------------------------------------------
  // The statistics row

  /** The values of column `head`, one per test that has the section. */
  function ColumnValues(tests: seq<CsvTest>, head: string): seq<real> {
    if tests == [] then []
    else
      var prev := ColumnValues(tests[..|tests| - 1], head);
      var t := tests[|tests| - 1];
      if t.sections.Some? && Get(t.sections.value, head).Some? then prev + [EqualityValue(Get(t.sections.value, head).value)]
      else prev
  }

  /** The arithmetic mean, 0 for no values (the `ZeroDivisionError` branch). */
  function Mean(vs: seq<real>): real {
    if vs == [] then 0.0 else Sum(vs) / (|vs| as real)
  }

  function StatCells(tests: seq<CsvTest>, header: seq<string>): seq<Cell> {
    if header == [] then []
    else
      var prev := StatCells(tests, header[..|header| - 1]);
      var el := header[|header| - 1];
      if el == TestHead || el == CodeHead then prev else prev + [Fixed2(Mean(ColumnValues(tests, el)))]
  }

  /** `_statistics_row_builder`. */
  function StatsRow(tests: seq<CsvTest>, header: seq<string>): seq<Cell> {
    [Text("TOTAL"), Text("")] + StatCells(tests, header)
  }

  lemma {:induction false} StatCellsColumns(tests: seq<CsvTest>, h: seq<string>)
    requires |h| >= 2 && h[0] == TestHead && h[1] == CodeHead && TestHead !in h[2..] && CodeHead !in h[2..]
    ensures |StatCells(tests, h)| == |h| - 2
    ensures forall j :: 2 <= j < |h| ==> StatCells(tests, h)[j - 2] == Fixed2(Mean(ColumnValues(tests, h[j])))
  {
    if |h| == 2 {
      assert h[..1][..0] == [];
      assert h[..1] == [TestHead];
      assert StatCells(tests, h[..1]) == [];
      assert h[..|h| - 1] == h[..1];
      assert StatCells(tests, h) == [];
    } else {
      var h' := h[..|h| - 1];
      var last := h[|h| - 1];
      assert h'[2..] == h[2..|h| - 1];
      assert last in h[2..];
      StatCellsColumns(tests, h');
      var c := Fixed2(Mean(ColumnValues(tests, last)));
      assert StatCells(tests, h) == StatCells(tests, h') + [c];
      forall j | 2 <= j < |h| ensures StatCells(tests, h)[j - 2] == Fixed2(Mean(ColumnValues(tests, h[j]))) {
        if j < |h| - 1 {
          assert h'[j] == h[j];
        }
      }
    }
  }

  /** The statistics row has one field per column: "TOTAL", nothing, then each section's mean. */
  lemma StatsShape(tests: seq<CsvTest>, h: seq<string>)
    requires HeadsOnce(h)
    ensures var r := StatsRow(tests, h);
      |r| == |h| && r[0] == Text("TOTAL") && r[1] == Text("") &&
      forall j :: 2 <= j < |h| ==> r[j] == Fixed2(Mean(ColumnValues(tests, h[j])))
  {
    assert h[2..] == h[1..][1..];
    StatCellsColumns(tests, h);
  }

  /** Every entry of every test holds a value between 0 and 100. */
  ghost predicate PercentsInRange(tests: seq<CsvTest>) {
    forall i, k :: 0 <= i < |tests| && tests[i].sections.Some? && 0 <= k < |tests[i].sections.value| ==>
      0.0 <= EqualityValue(tests[i].sections.value[k].1) <= 100.0
  }

  lemma {:induction false} ColumnValuesInRange(tests: seq<CsvTest>, head: string)
    requires PercentsInRange(tests)
    ensures forall i :: 0 <= i < |ColumnValues(tests, head)| ==> 0.0 <= ColumnValues(tests, head)[i] <= 100.0
  {
    if tests != [] {
      var t := tests[|tests| - 1];
      ColumnValuesInRange(tests[..|tests| - 1], head);
      if t.sections.Some? && Get(t.sections.value, head).Some? {
        GetIn(t.sections.value, head);
      }
    }
  }

  /** When every entry is a percentage, so is every mean of the statistics row. */
  lemma MeanInRange(tests: seq<CsvTest>, head: string)
    requires PercentsInRange(tests)
    ensures 0.0 <= Mean(ColumnValues(tests, head)) <= 100.0
  {
    var vs := ColumnValues(tests, head);
    ColumnValuesInRange(tests, head);
    SumBounds(vs, 0.0, 100.0);
    if vs != [] {
      QuotientBound(Sum(vs), |vs| as real, 100.0);
    }
  }

  lemma QuotientBound(s: real, n: real, hi: real)
    requires n > 0.0 && 0.0 <= s <= n * hi
    ensures 0.0 <= s / n <= hi
  {
    var q := s / n;
    assert q * n == s;
    assert (hi - q) * n == hi * n - s;
  }

  // ---------------------------------------------------------------------
  // State and transitions

  datatype CsvState = CsvState(tests: seq<CsvTest>, sections: Option<Sections>, holder: Option<nat>,
                               written: seq<seq<Cell>>)

  /**
   * The current section map is the one test `holder` holds, and a test
   * that has sections has its status code.
   */
  ghost predicate Consistent(s: CsvState) {
    (s.holder.Some? ==> s.holder.value < |s.tests| && s.sections.Some? && s.tests[s.holder.value].sections == s.sections) &&
    forall i :: 0 <= i < |s.tests| && s.tests[i].sections.Some? ==> s.tests[i].status.Some?
  }

  function OnBeginSession(s: CsvState): CsvState {
    s.(tests := [], holder := None)
  }

  function OnBeginTest(s: CsvState, description: Option<string>): CsvState {
    s.(tests := s.tests + [CsvTest(description, None, None)])
  }

  /** The "0" entries of the sections of a failed run. */
  function NotRunEntries(regular: seq<Section>): Sections {
    if regular == [] then []
    else Put(NotRunEntries(regular[..|regular| - 1]), regular[|regular| - 1].tag, NotRun)
  }

  /** Every regular section gets a "0" entry, each tag once, in order of first appearance. */
  lemma {:induction false} NotRunShape(regular: seq<Section>)
    ensures Keys(NotRunEntries(regular)) == Dedup(Tags(regular))
    ensures forall t :: t in Keys(NotRunEntries(regular)) ==> Get(NotRunEntries(regular), t) == Some(NotRun)
  {
    if regular != [] {
      NotRunShape(regular[..|regular| - 1]);
      TagsSnoc(regular);
    }
  }

  /**
   * `execution_result`: a fresh section map, then the status code (a
   * `KeyError` for an output over the limit, which leaves the fresh map
   * attached to no test), then "0" entries for a failed run.
   */
  function OnExecution(s: CsvState, res: ExecResult, regular: seq<Section>): (CsvState, Option<PyError>) {
    if s.tests == [] then (s, Some(IndexError))
    else
      var last := |s.tests| - 1;
      match StatusCode(res.result)
      case None => (s.(sections := Some([]), holder := None), Some(KeyError))
      case Some(code) =>
        var m := if res.result != ErOk then NotRunEntries(regular) else [];
        (s.(tests := s.tests[last := s.tests[last].(status := Some(code), sections := Some(m))],
            sections := Some(m), holder := Some(last)), None)
  }

  /** Stores `e` for `tag` in the current map, and so in the test that holds it. */
  function Store(s: CsvState, tag: string, e: Equality): CsvState
    requires s.sections.Some? && Consistent(s)
  {
    var m := Put(s.sections.value, tag, e);
    if s.holder.Some? then s.(sections := Some(m), tests := s.tests[s.holder.value := s.tests[s.holder.value].(sections := Some(m))])
    else s.(sections := Some(m))
  }

  /** `comparison_result`; before any execution result there is no map to store into. */
  function OnComparison(s: CsvState, expected: Section, diffs: seq<real>): (CsvState, Option<PyError>)
    requires Consistent(s)
  {
    if s.sections.None? then (s, Some(AttributeError)) else (Store(s, expected.tag, Percent(PercentCorrect(diffs))), None)
  }

  function OnMissing(s: CsvState, expected: Section): (CsvState, Option<PyError>)
    requires Consistent(s)
  {
    if s.sections.None? then (s, Some(AttributeError)) else (Store(s, expected.tag, Miss), None)
  }

  function HeaderCells(h: seq<string>): (r: seq<Cell>)
    ensures |r| == |h| && forall j :: 0 <= j < |h| ==> r[j] == Text(h[j])
  {
    seq(|h|, j requires 0 <= j < |h| => Text(h[j]))
  }

  predicate AllHaveStatus(tests: seq<CsvTest>) {
    forall i :: 0 <= i < |tests| ==> tests[i].status.Some?
  }

  function Rows(tests: seq<CsvTest>, h: seq<string>): seq<seq<Cell>>
    requires AllHaveStatus(tests)
  {
    if tests == [] then [] else Rows(tests[..|tests| - 1], h) + [RowOf(tests[|tests| - 1], h)]
  }

  /** The lines `end_session` writes: the header, one row per test, the statistics row. */
  function Table(tests: seq<CsvTest>, h: seq<string>): seq<seq<Cell>>
    requires AllHaveStatus(tests)
  {
    [HeaderCells(h)] + Rows(tests, h) + [StatsRow(tests, h)]
  }

  /** Once the header can be built every test has a status code. */
  lemma ExecutedHaveStatus(s: CsvState)
    requires Consistent(s) && AllExecuted(s.tests)
    ensures AllHaveStatus(s.tests)
  {
    forall i | 0 <= i < |s.tests| ensures s.tests[i].status.Some? {
      assert s.tests[i].sections.Some?;
    }
  }

  function OnEndSession(s: CsvState): (CsvState, Option<PyError>)
    requires Consistent(s)
  {
    match HeaderOf(s.tests)
    case Raised(e) => (s, Some(e))
    case Returned(h) => (s.(written := s.written + Table(s.tests, h)), None)
  }

  /** One call of the formatter; the older two-argument `execution_result` is a `TypeError`. */
  function Next(s: CsvState, e: Event): (CsvState, Option<PyError>)
    requires Consistent(s)
  {
    match e
    case BeginSession => (OnBeginSession(s), None)
    case EndSession => OnEndSession(s)
    case BeginTest(d, _, _, _) => (OnBeginTest(s, d), None)
    case ExecutionResult(_, res, regular) => OnExecution(s, res, regular)
    case PlainExecutionResult(_, _) => (s, Some(TypeError))
    case ComparisonResult(x, _, diffs, _) => OnComparison(s, x, diffs)
    case MissingSection(x) => OnMissing(s, x)
    case EndTest => (s, None)
  }

  lemma {:induction false} RowsAt(tests: seq<CsvTest>, h: seq<string>)
    requires AllHaveStatus(tests)
    ensures |Rows(tests, h)| == |tests|
    ensures forall i :: 0 <= i < |tests| ==> Rows(tests, h)[i] == RowOf(tests[i], h)
  {
    if tests != [] {
      RowsAt(tests[..|tests| - 1], h);
    }
  }

  /** Every call keeps the state consistent. */
  lemma NextConsistent(s: CsvState, e: Event)
    requires Consistent(s)
    ensures Consistent(Next(s, e).0)
  {}

  lemma RowWidth(t: CsvTest, h: seq<string>)
    requires t.status.Some? && HeadsOnce(h)
    ensures |RowOf(t, h)| == |h|
  {
    RowShape(t, h);
  }

  /** The table holds the header, then one line per test in order, then the totals. */
  lemma TableLines(tests: seq<CsvTest>, h: seq<string>)
    requires AllHaveStatus(tests)
    ensures var w := Table(tests, h);
      |w| == |tests| + 2 && w[0] == HeaderCells(h) && w[|w| - 1] == StatsRow(tests, h) &&
      forall i :: 0 <= i < |tests| ==> w[i + 1] == RowOf(tests[i], h)
  {
    RowsAt(tests, h);
  }

  /** The table is rectangular: every line is as wide as the header. */
  lemma TableRectangular(tests: seq<CsvTest>, h: seq<string>)
    requires AllHaveStatus(tests) && HeadsOnce(h)
    ensures forall k :: 0 <= k < |Table(tests, h)| ==> |Table(tests, h)[k]| == |h|
  {
    var w := Table(tests, h);
    TableLines(tests, h);
    forall k | 0 <= k < |w| ensures |w[k]| == |h| {
      if k == 0 {
      } else if k <= |tests| {
        RowWidth(tests[k - 1], h);
      } else {
        StatsShape(tests, h);
      }
    }
  }

  /**
   * `end_session` fails, writing nothing, exactly when a test has no
   * sections; otherwise it appends the table built on the header.
   */
  lemma EndSessionWrites(s: CsvState)
    requires Consistent(s)
    ensures OnEndSession(s).1.Some? <==> !AllExecuted(s.tests)
    ensures OnEndSession(s).1.Some? ==> OnEndSession(s).0 == s
    ensures AllExecuted(s.tests) ==>
      AllHaveStatus(s.tests) && HeadsOnce(HeaderOf(s.tests).value) &&
      OnEndSession(s).0.written == s.written + Table(s.tests, HeaderOf(s.tests).value)
  {
    if AllExecuted(s.tests) {
      HeaderShape(s.tests);
    }
  }

  /**
   * A run whose output went over the limit leaves its test without
   * sections, so the session can no longer be written.
   */
  lemma OutputLimitBreaksSession(s: CsvState, d: Option<string>, res: ExecResult, regular: seq<Section>)
    requires Consistent(s) && res.result == ErOutputLimit
    ensures var s1 := OnExecution(OnBeginTest(s, d), res, regular);
      s1.1 == Some(KeyError) && Consistent(s1.0) && OnEndSession(s1.0) == (s1.0, Some(KeyError))
  {
    var s1 := OnExecution(OnBeginTest(s, d), res, regular).0;
    assert s1.tests[|s1.tests| - 1].sections.None?;
  }

  /** After a failed run every regular section reads "0", and after a successful one none is there yet. */
  lemma ExecutionEntries(s: CsvState, res: ExecResult, regular: seq<Section>)
    requires Consistent(s) && s.tests != [] && res.result != ErOutputLimit
    ensures var n := OnExecution(s, res, regular).0;
      n.sections.Some? && n.tests[|n.tests| - 1].sections == n.sections &&
      (res.result == ErOk ==> n.sections.value == []) &&
      (res.result != ErOk ==>
         Keys(n.sections.value) == Dedup(Tags(regular)) &&
         forall t :: t in Keys(n.sections.value) ==> Get(n.sections.value, t) == Some(NotRun))
  {
    var last := |s.tests| - 1;
    var code := StatusCode(res.result).value;
    var m := if res.result != ErOk then NotRunEntries(regular) else [];
    var n := OnExecution(s, res, regular).0;
    assert n == s.(tests := s.tests[last := s.tests[last].(status := Some(code), sections := Some(m))],
                   sections := Some(m), holder := Some(last));
    assert n.tests[last].sections == Some(m);
    if res.result != ErOk {
      NotRunShape(regular);
    }
  }

  /** A comparison with differences between 0 and 1 keeps every entry a percentage. */
  lemma ComparisonInRange(s: CsvState, expected: Section, diffs: seq<real>)
    requires Consistent(s) && PercentsInRange(s.tests)
    requires forall i :: 0 <= i < |diffs| ==> 0.0 <= diffs[i] <= 1.0
    ensures PercentsInRange(OnComparison(s, expected, diffs).0.tests)
  {
    PercentRange(diffs);
    if s.sections.Some? && s.holder.Some? {
      var n := OnComparison(s, expected, diffs).0;
      var m := s.sections.value;
      var m' := Put(m, expected.tag, Percent(PercentCorrect(diffs)));
      forall k | 0 <= k < |m'| ensures 0.0 <= EqualityValue(m'[k].1) <= 100.0 {
        PutEntries(m, expected.tag, Percent(PercentCorrect(diffs)), k);
      }
      assert n.tests[s.holder.value].sections == Some(m');
    }
  }

  /**
   * An entry of the map after `m[k] = v` is `v` or an entry of `m`; an entry
   * under another key is the one `m` had at the same place.
   */
  lemma {:induction false} PutEntries(m: Sections, key: string, v: Equality, k: nat)
    requires k < |Put(m, key, v)|
    ensures Put(m, key, v)[k].1 == v || Put(m, key, v)[k] in m
    ensures Put(m, key, v)[k].0 != key ==> k < |m| && Put(m, key, v)[k] == m[k]
    ensures Put(m, key, v)[k].0 == key ==> Put(m, key, v)[k].1 == v || (k < |m| && Put(m, key, v)[k] == m[k])
  {
    if m != [] && m[0].0 != key && k > 0 {
      PutEntries(m[1..], key, v, k - 1);
    }
  }

  // ---------------------------------------------------------------------
  // The formatter object

  class CsvFormatter {
    var tests: seq<CsvTest>
    var sections: Option<Sections>
    var holder: Option<nat>
    /** The rows written to the destination so far. */
    var written: seq<seq<Cell>>

    function State(): CsvState
      reads this
    {
      CsvState(tests, sections, holder, written)
    }

    ghost predicate Valid()
      reads this
    {
      Consistent(State())
    }

    constructor()
      ensures State() == CsvState([], None, None, []) && Valid()
    {
      tests := [];
      sections := None;
      holder := None;
      written := [];
    }

    method BeginSession()
      requires Valid()
      modifies this
      ensures State() == OnBeginSession(old(State())) && Valid()
    {
      tests := [];
      holder := None;
    }

    method BeginTest(description: Option<string>)
      requires Valid()
      modifies this
      ensures State() == OnBeginTest(old(State()), description) && Valid()
    {
      tests := tests + [CsvTest(description, None, None)];
    }

    /** Appends the section names of one test to the header, skipping those already there. */
    static method AddNames(header: seq<string>, ghost base: seq<string>, names: seq<string>) returns (r: seq<string>)
      requires header == Dedup(base)
      ensures r == Dedup(base + names)
    {
      r := header;
      assert base + names[..0] == base;
      for j := 0 to |names|
        invariant r == Dedup(base + names[..j])
      {
        assert base + names[..j + 1] == (base + names[..j]) + [names[j]];
        DedupSnoc(base + names[..j], names[j]);
        if names[j] !in r {
          r := r + [names[j]];
        }
      }
      assert names[..|names|] == names;
    }

    static method BuildHeader(tests: seq<CsvTest>) returns (r: Outcome<seq<string>>)
      ensures r == HeaderOf(tests)
    {
      var header := [TestHead, CodeHead];
      DedupHeads();
      assert [TestHead, CodeHead] + SectionNames(tests[..0]) == [TestHead, CodeHead];
      for i := 0 to |tests|
        invariant AllExecuted(tests[..i])
        invariant header == Dedup([TestHead, CodeHead] + SectionNames(tests[..i]))
      {
        if tests[i].sections.None? {
          HeaderRaises(tests, i);
          return Raised(KeyError);
        }
        HeaderStep(tests, i);
        header := AddNames(header, [TestHead, CodeHead] + SectionNames(tests[..i]), Keys(tests[i].sections.value));
      }
      assert tests[..|tests|] == tests;
      r := Returned(header);
    }

    static method BuildRow(t: CsvTest, header: seq<string>) returns (row: seq<Cell>)
      requires t.status.Some?
      ensures row == RowOf(t, header)
    {
      var cells: seq<Cell> := [];
      for i := 0 to |header|
        invariant cells == Cells(t, header[..i])
      {
        assert header[..i + 1][..i] == header[..i];
        if header[i] == CodeHead {
          cells := cells + [Text(t.status.value)];
        } else if header[i] != TestHead {
          cells := cells + [ColumnCell(t, header[i])];
        }
      }
      assert header[..|header|] == header;
      row := [TitleCell(t.title)] + cells;
    }

    static method BuildRows(tests: seq<CsvTest>, header: seq<string>) returns (rows: seq<seq<Cell>>)
      requires AllHaveStatus(tests)
      ensures rows == Rows(tests, header)
    {
      rows := [];
      for i := 0 to |tests|
        invariant rows == Rows(tests[..i], header)
      {
        assert tests[..i + 1][..i] == tests[..i];
        var row := BuildRow(tests[i], header);
        rows := rows + [row];
      }
      assert tests[..|tests|] == tests;
    }

    static method CollectValues(tests: seq<CsvTest>, head: string) returns (vs: seq<real>)
      ensures vs == ColumnValues(tests, head)
    {
      vs := [];
      for i := 0 to |tests|
        invariant vs == ColumnValues(tests[..i], head)
      {
        assert tests[..i + 1][..i] == tests[..i];
        if tests[i].sections.Some? {
          var e := Get(tests[i].sections.value, head);
          if e.Some? {
            vs := vs + [EqualityValue(e.value)];
          }
        }
      }
      assert tests[..|tests|] == tests;
    }

    static method BuildStatsRow(tests: seq<CsvTest>, header: seq<string>) returns (row: seq<Cell>)
      ensures row == StatsRow(tests, header)
    {
      var cells: seq<Cell> := [];
      for i := 0 to |header|
        invariant cells == StatCells(tests, header[..i])
      {
        assert header[..i + 1][..i] == header[..i];
        if header[i] != TestHead && header[i] != CodeHead {
          var vs := CollectValues(tests, header[i]);
          cells := cells + [Fixed2(Mean(vs))];
        }
      }
      assert header[..|header|] == header;
      row := [Text("TOTAL"), Text("")] + cells;
    }

    method EndSession() returns (err: Option<PyError>)
      requires Valid()
      modifies this
      ensures State() == OnEndSession(old(State())).0 && Valid()
      ensures err == OnEndSession(old(State())).1
    {
      ghost var s := State();
      var h := BuildHeader(tests);
      if h.Raised? {
        return Some(h.error);
      }
      var header := h.value;
      ExecutedHaveStatus(s);
      var rows := BuildRows(tests, header);
      var stats := BuildStatsRow(tests, header);
      written := written + [HeaderCells(header)] + rows + [stats];
      err := None;
      assert OnEndSession(s) == (s.(written := s.written + Table(s.tests, header)), None);
    }

    static method MarkNotRun(regular: seq<Section>) returns (m: Sections)
      ensures m == NotRunEntries(regular)
    {
      m := [];
      for i := 0 to |regular|
        invariant m == NotRunEntries(regular[..i])
      {
        assert regular[..i + 1][..i] == regular[..i];
        m := Put(m, regular[i].tag, NotRun);
      }
      assert regular[..|regular|] == regular;
    }

    method ExecutionResult(res: ExecResult, regular: seq<Section>) returns (err: Option<PyError>)
      requires Valid()
      modifies this
      ensures State() == OnExecution(old(State()), res, regular).0 && Valid()
      ensures err == OnExecution(old(State()), res, regular).1
    {
      if tests == [] {
        return Some(IndexError);
      }
      var last := |tests| - 1;
      sections := Some([]);
      holder := None;
      var code := StatusCode(res.result);
      if code.None? {
        return Some(KeyError);
      }
      var m: Sections := [];
      if res.result != ErOk {
        m := MarkNotRun(regular);
      }
      tests := tests[last := tests[last].(status := Some(code.value), sections := Some(m))];
      sections := Some(m);
      holder := Some(last);
      err := None;
    }

    /** `self._sections[tag] = e`. */
    method Assign(tag: string, e: Equality)
      requires Valid() && sections.Some?
      modifies this
      ensures State() == Store(old(State()), tag, e) && Valid()
    {
      var m := Put(sections.value, tag, e);
      sections := Some(m);
      if holder.Some? {
        tests := tests[holder.value := tests[holder.value].(sections := Some(m))];
      }
    }

    method ComparisonResult(expected: Section, diffs: seq<real>) returns (err: Option<PyError>)
      requires Valid()
      modifies this
      ensures State() == OnComparison(old(State()), expected, diffs).0 && Valid()
      ensures err == OnComparison(old(State()), expected, diffs).1
    {
      var percent := if |diffs| != 0 then ((|diffs| as real - Sum(diffs)) * 100.0) / (|diffs| as real) else 100.0;
      if sections.None? {
        return Some(AttributeError);
      }
      Assign(expected.tag, Percent(percent));
      err := None;
    }

    method MissingSection(expected: Section) returns (err: Option<PyError>)
      requires Valid()
      modifies this
      ensures State() == OnMissing(old(State()), expected).0 && Valid()
      ensures err == OnMissing(old(State()), expected).1
    {
      if sections.None? {
        return Some(AttributeError);
      }
      Assign(expected.tag, Miss);
      err := None;
    }

    /** The call an event stands for. */
    method Dispatch(e: Event) returns (err: Option<PyError>)
      requires Valid()
      modifies this
      ensures State() == Next(old(State()), e).0 && err == Next(old(State()), e).1
      ensures Valid()
    {
      match e
      case BeginSession => BeginSession(); err := None;
      case EndSession => err := EndSession();
      case BeginTest(d, _, _, _) => BeginTest(d); err := None;
      case ExecutionResult(_, res, regular) => err := ExecutionResult(res, regular);
      case PlainExecutionResult(_, _) => err := Some(TypeError);
      case ComparisonResult(x, _, diffs, _) => err := ComparisonResult(x, diffs);
      case MissingSection(x) => err := MissingSection(x);
      case EndTest => err := None;
    }
  }
}
