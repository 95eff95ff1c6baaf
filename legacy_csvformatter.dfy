/**
 * The CSV formatter of the older generation: the header comes from the
 * first test's sections, and each test's row holds, per section, its
 * similarity (100 minus the sum of the differences) or "missing".
 */
module LegacyCsv {
  import opened Common
  import opened Text
  import opened TestData
  import opened Events
  import opened OrderedMap
  import Csv

  /** A section entry: its similarity and its position among the comparisons, or only the status "missing". */
  datatype Entry = Similar(similar: real, number: int) | StatusOnly

  type Sections = seq<(string, Entry)>

  datatype LegacyTest = LegacyTest(title: string, sections: Option<Sections>)

  const TestHead := "Test"

  /** The key under which `missing_section` stores its entry, as written. */
  const LiteralKey := "expected.tag"

  /** `description.replace('\n', ' ')`: the title is the description on one line. */
  function Title(description: string): (r: string)
    ensures '\n' !in r && |r| == |description|
    ensures forall i :: 0 <= i < |r| && description[i] != '\n' ==> r[i] == description[i]
  {
    ReplaceChar(description, '\n', " ")
  }

  /** `_header_builder`: "Test", then the first test's section names; with no test or no sections it raises. */
  function HeaderOf(tests: seq<LegacyTest>): (r: Outcome<seq<string>>)
    ensures r.Raised? <==> tests == [] || tests[0].sections.None?
    ensures r.Returned? ==>
      |r.value| == |tests[0].sections.value| + 1 && r.value[0] == TestHead &&
      forall k :: 1 <= k < |r.value| ==> r.value[k] == tests[0].sections.value[k - 1].0
  {
    if tests == [] then Raised(IndexError)
    else if tests[0].sections.None? then Raised(KeyError)
    else Returned([TestHead] + Keys(tests[0].sections.value))
  }

  /** The field of column `head`: the similarity, or "missing" when the test has none for it. */
  function ColumnCell(t: LegacyTest, head: string): Csv.Cell {
    if t.sections.Some? && Get(t.sections.value, head).Some? && Get(t.sections.value, head).value.Similar?
    then Csv.Float(Get(t.sections.value, head).value.similar)
    else Csv.Text("missing")
  }

  /** The fields after the title, one per column but "Test". */
  function Cells(t: LegacyTest, header: seq<string>): seq<Csv.Cell> {
    if header == [] then []
    else
      var prev := Cells(t, header[..|header| - 1]);
      var head := header[|header| - 1];
      if head == TestHead then prev else prev + [ColumnCell(t, head)]
  }

  /** `_row_builder`. */
  function RowOf(t: LegacyTest, header: seq<string>): seq<Csv.Cell> {
    [Csv.Text(t.title)] + Cells(t, header)
  }

  function Rows(tests: seq<LegacyTest>, h: seq<string>): seq<seq<Csv.Cell>> {
    if tests == [] then [] else Rows(tests[..|tests| - 1], h) + [RowOf(tests[|tests| - 1], h)]
  }

  lemma {:induction false} CellsColumns(t: LegacyTest, h: seq<string>)
    requires TestHead !in h
    ensures |Cells(t, h)| == |h|
    ensures forall j :: 0 <= j < |h| ==> Cells(t, h)[j] == ColumnCell(t, h[j])
  {
    if h != [] {
      CellsColumns(t, h[..|h| - 1]);
    }
  }

  /**
   * Unless a section is itself named "Test", every row is as wide as the
   * header: the title, then per section its similarity or "missing".
   */
  lemma RowShape(t: LegacyTest, tests: seq<LegacyTest>)
    requires HeaderOf(tests).Returned? && TestHead !in Keys(tests[0].sections.value)
    ensures var h := HeaderOf(tests).value; var r := RowOf(t, h);
      |r| == |h| && r[0] == Csv.Text(t.title) && forall j :: 1 <= j < |h| ==> r[j] == ColumnCell(t, h[j])
  {
    var h := HeaderOf(tests).value;
    assert h[..1] == [TestHead] && h[..1][..0] == [];
    assert h == [TestHead] + h[1..];
    CellsFrom(t, h);
  }

  lemma CellsFrom(t: LegacyTest, h: seq<string>)
    requires |h| >= 1 && h[0] == TestHead && TestHead !in h[1..]
    ensures |Cells(t, h)| == |h| - 1
    ensures forall j :: 1 <= j < |h| ==> Cells(t, h)[j - 1] == ColumnCell(t, h[j])
  {
    CellsAfterHead(t, h);
    CellsColumns(t, h[1..]);
  }

  lemma {:induction false} CellsAfterHead(t: LegacyTest, h: seq<string>)
    requires |h| >= 1 && h[0] == TestHead
    ensures Cells(t, h) == Cells(t, h[1..])
  {
    if |h| == 1 {
      assert h[..0] == [] && h[1..] == [];
    } else {
      CellsAfterHead(t, h[..|h| - 1]);
      assert h[..|h| - 1][1..] == h[1..][..|h[1..]| - 1];
    }
  }

  // ---------------------------------------------------------------------
  // State and transitions

  datatype LegacyCsvState = LegacyCsvState(tests: seq<LegacyTest>, sections: Option<Sections>, holder: Option<nat>,
                                           sectionNumber: int, written: seq<seq<Csv.Cell>>)

  /** The current section map is the one test `holder` holds. */
  ghost predicate Holds(s: LegacyCsvState) {
    s.holder.Some? ==> s.holder.value < |s.tests| && s.sections.Some? && s.tests[s.holder.value].sections == s.sections
  }

  function OnBeginSession(s: LegacyCsvState): LegacyCsvState {
    s.(tests := [], holder := None)
  }

  /** `begin_test`: the comparison count restarts, then a `None` description raises before any test is added. */
  function OnBeginTest(s: LegacyCsvState, description: Option<string>): (LegacyCsvState, Option<PyError>) {
    var s1 := s.(sectionNumber := 0);
    if description.None? then (s1, Some(AttributeError))
    else (s1.(tests := s.tests + [LegacyTest(Title(description.value), None)]), None)
  }

  /** `execution_result`: the last test gets a fresh, empty section map. */
  function OnExecution(s: LegacyCsvState): (LegacyCsvState, Option<PyError>) {
    if s.tests == [] then (s, Some(IndexError))
    else
      var last := |s.tests| - 1;
      (s.(tests := s.tests[last := s.tests[last].(sections := Some([]))], sections := Some([]), holder := Some(last)), None)
  }

  function Store(s: LegacyCsvState, tag: string, e: Entry): LegacyCsvState
    requires s.sections.Some? && Holds(s)
  {
    var m := Put(s.sections.value, tag, e);
    if s.holder.Some? then s.(sections := Some(m), tests := s.tests[s.holder.value := s.tests[s.holder.value].(sections := Some(m))])
    else s.(sections := Some(m))
  }

  /**
   * `comparison_result`: the entry takes the current count, which goes up
   * by one even when there is no section map yet to store into.
   */
  function OnComparison(s: LegacyCsvState, expected: Section, diffs: seq<real>): (LegacyCsvState, Option<PyError>)
    requires Holds(s)
  {
    var e := Similar(100.0 - Sum(diffs), s.sectionNumber);
    var s1 := s.(sectionNumber := s.sectionNumber + 1);
    if s1.sections.None? then (s1, Some(AttributeError)) else (Store(s1, expected.tag, e), None)
  }

  /** `missing_section` as written: every missing section is stored under one literal key. */
  function MissingAsWritten(s: LegacyCsvState, expected: Section): (LegacyCsvState, Option<PyError>)
    requires Holds(s)
  {
    if s.sections.None? then (s, Some(AttributeError)) else (Store(s, LiteralKey, StatusOnly), None)
  }

  /** `missing_section` storing the status under the section's own tag. */
  function OnMissing(s: LegacyCsvState, expected: Section): (LegacyCsvState, Option<PyError>)
    requires Holds(s)
  {
    if s.sections.None? then (s, Some(AttributeError)) else (Store(s, expected.tag, StatusOnly), None)
  }

  /** `end_session`: the header, then one row per test. */
  function OnEndSession(s: LegacyCsvState): (LegacyCsvState, Option<PyError>) {
    match HeaderOf(s.tests)
    case Raised(e) => (s, Some(e))
    case Returned(h) => (s.(written := s.written + [Csv.HeaderCells(h)] + Rows(s.tests, h)), None)
  }

  /**
   * One call of the formatter; the newer three-argument `execution_result`
   * is a `TypeError`, and `end_test`, which neither it nor its base class
   * defines, an `AttributeError`.
   */
  function LegacyNext(s: LegacyCsvState, e: Event): (LegacyCsvState, Option<PyError>)
    requires Holds(s)
  {
    match e
    case BeginSession => (OnBeginSession(s), None)
    case EndSession => OnEndSession(s)
    case BeginTest(d, _, _, _) => OnBeginTest(s, d)
    case ExecutionResult(_, _, _) => (s, Some(TypeError))
    case PlainExecutionResult(_, _) => OnExecution(s)
    case ComparisonResult(x, _, diffs, _) => OnComparison(s, x, diffs)
    case MissingSection(x) => MissingAsWritten(s, x)
    case EndTest => (s, Some(AttributeError))
  }

  lemma LegacyNextHolds(s: LegacyCsvState, e: Event)
    requires Holds(s)
    ensures Holds(LegacyNext(s, e).0)
  {}

  lemma {:induction false} RowsAt(tests: seq<LegacyTest>, h: seq<string>)
    ensures |Rows(tests, h)| == |tests|
    ensures forall i :: 0 <= i < |tests| ==> Rows(tests, h)[i] == RowOf(tests[i], h)
  {
    if tests != [] {
      RowsAt(tests[..|tests| - 1], h);
    }
  }

  /** `end_session` raises exactly when there is no test or the first never ran; otherwise it writes one row per test. */
  lemma EndSessionWrites(s: LegacyCsvState)
    ensures OnEndSession(s).1.Some? <==> s.tests == [] || s.tests[0].sections.None?
    ensures OnEndSession(s).1.None? ==>
      var w := OnEndSession(s).0.written; var h := HeaderOf(s.tests).value;
      |w| == |s.written| + 1 + |s.tests| && w[|s.written|] == Csv.HeaderCells(h) &&
      forall i :: 0 <= i < |s.tests| ==> w[|s.written| + 1 + i] == RowOf(s.tests[i], h)
  {
    if HeaderOf(s.tests).Returned? {
      RowsAt(s.tests, HeaderOf(s.tests).value);
    }
  }

  /** Right after `begin_test` and `execution_result` the test holds an empty map and no comparison is counted. */
  lemma FreshTest(s: LegacyCsvState, d: string)
    requires Holds(s)
    ensures var n := OnExecution(OnBeginTest(s, Some(d)).0).0;
      Holds(n) && n.sectionNumber == 0 && n.sections == Some([]) && n.holder == Some(|s.tests|) &&
      |n.tests| == |s.tests| + 1 && n.tests[|s.tests|].title == Title(d)
  {}

  /**
   * A comparison stores the similarity under the section's tag, numbered
   * with the count, which goes up by one; other sections keep their entries.
   */
  lemma ComparisonStores(s: LegacyCsvState, x: Section, dx: seq<real>)
    requires Holds(s) && s.sections.Some?
    ensures var n := OnComparison(s, x, dx).0;
      Holds(n) && n.sectionNumber == s.sectionNumber + 1 && n.sections.Some? &&
      Get(n.sections.value, x.tag) == Some(Similar(100.0 - Sum(dx), s.sectionNumber)) &&
      forall t :: t != x.tag ==> Get(n.sections.value, t) == Get(s.sections.value, t)
  {}

  /** Two comparisons of different sections are both stored, numbered one after the other. */
  lemma ComparisonsNumbered(s: LegacyCsvState, x: Section, dx: seq<real>, y: Section, dy: seq<real>)
    requires Holds(s) && s.sections.Some? && x.tag != y.tag
    ensures var s3 := OnComparison(OnComparison(s, x, dx).0, y, dy).0;
      Holds(s3) && s3.sectionNumber == s.sectionNumber + 2 &&
      Get(s3.sections.value, x.tag) == Some(Similar(100.0 - Sum(dx), s.sectionNumber)) &&
      Get(s3.sections.value, y.tag) == Some(Similar(100.0 - Sum(dy), s.sectionNumber + 1))
  {
    ComparisonStores(s, x, dx);
    ComparisonStores(OnComparison(s, x, dx).0, y, dy);
  }

  /**
   * As written, a missing section shows "missing" in a column named
   * "expected.tag", and its own column keeps what it showed before.
   */
  lemma MissingShowsLiteral(s: LegacyCsvState, x: Section)
    requires Holds(s) && s.holder.Some? && s.sections.Some? && x.tag != LiteralKey
    ensures var n := MissingAsWritten(s, x).0;
      ColumnCell(n.tests[s.holder.value], LiteralKey) == Csv.Text("missing") &&
      ColumnCell(n.tests[s.holder.value], x.tag) == ColumnCell(s.tests[s.holder.value], x.tag)
  {
    var h := s.holder.value;
    var m := Put(s.sections.value, LiteralKey, StatusOnly);
    var n := MissingAsWritten(s, x).0;
    assert n == Store(s, LiteralKey, StatusOnly);
    assert n.tests[h].sections == Some(m);
    assert Get(m, LiteralKey) == Some(StatusOnly);
    assert Get(m, x.tag) == Get(s.sections.value, x.tag);
  }

  /** Stored under its own tag, as intended, a missing section shows "missing" in its column. */
  lemma MissingShowsMissing(s: LegacyCsvState, x: Section)
    requires Holds(s) && s.holder.Some?
    ensures var n := OnMissing(s, x).0;
      ColumnCell(n.tests[s.holder.value], x.tag) == Csv.Text("missing")
  {
  }

  /**
   * As written, two different missing sections of a test leave one entry,
   * under "expected.tag", and none under either section's tag; stored
   * under their tags, each has its own entry.
   */
  lemma MissingKeyCounterexample(s: LegacyCsvState, x: Section, y: Section)
    requires Holds(s) && s.sections == Some([]) && x.tag != y.tag && x.tag != LiteralKey && y.tag != LiteralKey
    ensures var w := MissingAsWritten(MissingAsWritten(s, x).0, y).0;
      w.sections == Some([(LiteralKey, StatusOnly)]) &&
      Get(w.sections.value, x.tag).None? && Get(w.sections.value, y.tag).None?
    ensures var c := OnMissing(OnMissing(s, x).0, y).0;
      c.sections == Some([(x.tag, StatusOnly), (y.tag, StatusOnly)])
  {
    PutSameTwice(LiteralKey, StatusOnly, StatusOnly);
    PutTwo(x.tag, StatusOnly, y.tag, StatusOnly);
  }

  // ---------------------------------------------------------------------
  // The formatter object

  class LegacyCsvFormatter {
    var tests: seq<LegacyTest>
    var sections: Option<Sections>
    var holder: Option<nat>
    /** `section_number`: how many comparisons the current test has had. */
    var sectionNumber: int
    var written: seq<seq<Csv.Cell>>

    function State(): LegacyCsvState
      reads this
    {
      LegacyCsvState(tests, sections, holder, sectionNumber, written)
    }

    ghost predicate Valid()
      reads this
    {
      Holds(State())
    }

    constructor()
      ensures State() == LegacyCsvState([], None, None, 0, []) && Valid()
    {
      tests := [];
      sections := None;
      holder := None;
      sectionNumber := 0;
      written := [];
    }

    method BeginSession()
      requires Valid()
      modifies this
      ensures State() == OnBeginSession(old(State())) && Valid()
    {
      tests := [];
      holder := None;
    }

    method BeginTest(description: Option<string>) returns (err: Option<PyError>)
      requires Valid()
      modifies this
      ensures State() == OnBeginTest(old(State()), description).0 && Valid()
      ensures err == OnBeginTest(old(State()), description).1
    {
      sectionNumber := 0;
      if description.None? {
        return Some(AttributeError);
      }
      tests := tests + [LegacyTest(Title(description.value), None)];
      err := None;
    }

    static method BuildRow(t: LegacyTest, header: seq<string>) returns (row: seq<Csv.Cell>)
      ensures row == RowOf(t, header)
    {
      var cells: seq<Csv.Cell> := [];
      for i := 0 to |header|
        invariant cells == Cells(t, header[..i])
      {
        assert header[..i + 1][..i] == header[..i];
        if header[i] != TestHead {
          cells := cells + [ColumnCell(t, header[i])];
        }
      }
      assert header[..|header|] == header;
      row := [Csv.Text(t.title)] + cells;
    }

    static method BuildRows(tests: seq<LegacyTest>, header: seq<string>) returns (rows: seq<seq<Csv.Cell>>)
      ensures rows == Rows(tests, header)
    {
      rows := [];
      for i := 0 to |tests|
        invariant rows == Rows(tests[..i], header)
      {
        assert tests[..i + 1][..i] == tests[..i];
        var row := BuildRow(tests[i], header);
        rows := rows + [row];
      }
      assert tests[..|tests|] == tests;
    }

    method EndSession() returns (err: Option<PyError>)
      requires Valid()
      modifies this
      ensures State() == OnEndSession(old(State())).0 && Valid()
      ensures err == OnEndSession(old(State())).1
    {
      if tests == [] {
        return Some(IndexError);
      }
      if tests[0].sections.None? {
        return Some(KeyError);
      }
      var header := [TestHead] + Keys(tests[0].sections.value);
      var rows := BuildRows(tests, header);
      written := written + [Csv.HeaderCells(header)] + rows;
      err := None;
    }

    method ExecutionResult() returns (err: Option<PyError>)
      requires Valid()
      modifies this
      ensures State() == OnExecution(old(State())).0 && Valid()
      ensures err == OnExecution(old(State())).1
    {
      if tests == [] {
        return Some(IndexError);
      }
      var last := |tests| - 1;
      sections := Some([]);
      tests := tests[last := tests[last].(sections := Some([]))];
      holder := Some(last);
      err := None;
    }

    method Assign(tag: string, e: Entry)
      requires Valid() && sections.Some?
      modifies this
      ensures State() == Store(old(State()), tag, e) && Valid()
    {
      var m := Put(sections.value, tag, e);
      sections := Some(m);
      if holder.Some? {
        tests := tests[holder.value := tests[holder.value].(sections := Some(m))];
      }
    }

    method ComparisonResult(expected: Section, diffs: seq<real>) returns (err: Option<PyError>)
      requires Valid()
      modifies this
      ensures State() == OnComparison(old(State()), expected, diffs).0 && Valid()
      ensures err == OnComparison(old(State()), expected, diffs).1
    {
      var e := Similar(100.0 - Sum(diffs), sectionNumber);
      sectionNumber := sectionNumber + 1;
      if sections.None? {
        return Some(AttributeError);
      }
      Assign(expected.tag, e);
      err := None;
    }

    method MissingSection(expected: Section) returns (err: Option<PyError>)
      requires Valid()
      modifies this
      ensures State() == MissingAsWritten(old(State()), expected).0 && Valid()
      ensures err == MissingAsWritten(old(State()), expected).1
    {
      if sections.None? {
        return Some(AttributeError);
      }
      Assign(LiteralKey, StatusOnly);
      err := None;
    }

    /** The call an event stands for. */
    method Dispatch(e: Event) returns (err: Option<PyError>)
      requires Valid()
      modifies this
      ensures State() == LegacyNext(old(State()), e).0 && err == LegacyNext(old(State()), e).1
      ensures Valid()
    {
      match e
      case BeginSession => BeginSession(); err := None;
      case EndSession => err := EndSession();
      case BeginTest(d, _, _, _) => err := BeginTest(d);
      case ExecutionResult(_, _, _) => err := Some(TypeError);
      case PlainExecutionResult(_, _) => err := ExecutionResult();
      case ComparisonResult(x, _, diffs, _) => err := ComparisonResult(x, diffs);
      case MissingSection(x) => err := MissingSection(x);
      case EndTest => err := Some(AttributeError);
    }
  }
}
