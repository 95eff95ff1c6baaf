/**
 * The HTML report of both generations (`pvcheck/htmlformatter.py`, newer,
 * and `src/htmlformatter.py`, older): a JSON formatter whose `end_session`
 * prints, instead of the JSON document, a table with one row per test, one
 * block of details per test and a summary table. The summary counters live
 * at module level: the counters of the sections in the header are set to
 * zero at every `end_session`, the totals never are.
 *
 * The printed page is a sequence of `Block`s; the markup around them (the
 * fixed head of the page, its style sheet and tags) is not modelled.
 */
module Html {
  import opened Common
  import opened Text
  import opened TestData
  import opened OrderedMap
  import opened Events
  import Json

  // ---------------------------------------------------------------------
  // Escaping

  /** `_trans_dic`: what `str.translate` writes in place of one character. */
  function EscapeChar(c: char): (r: string)
    ensures |r| >= 1
    ensures r == [c] <==> c != '\n' && c != '–' && c != '—' && c != '&' && c != '>' && c != '<'
  {
    if c == '\n' then "<br>"
    else if c == '–' then "&ndash;"
    else if c == '—' then "&mdash;"
    else if c == '&' then "&amp;"
    else if c == '>' then "&gt;"
    else if c == '<' then "&lt;"
    else [c]
  }

  /** `s.translate(_trantab)`: every character replaced in a single pass. */
  function Escape(s: string): string {
    if s == [] then [] else EscapeChar(s[0]) + Escape(s[1..])
  }

  /** What a browser shows for escaped text: the entities and line breaks read back. */
  function Unescape(t: string): string
    decreases |t|
  {
    if t == [] then []
    else if "<br>" <= t then "\n" + Unescape(t[4..])
    else if "&ndash;" <= t then "–" + Unescape(t[7..])
    else if "&mdash;" <= t then "—" + Unescape(t[7..])
    else if "&amp;" <= t then "&" + Unescape(t[5..])
    else if "&gt;" <= t then ">" + Unescape(t[4..])
    else if "&lt;" <= t then "<" + Unescape(t[4..])
    else [t[0]] + Unescape(t[1..])
  }

  lemma UnescapeStep(c: char, rest: string)
    ensures Unescape(EscapeChar(c) + rest) == [c] + Unescape(rest)
  {
    if c == '\n' {
      UnescapeEntity("<br>", rest);
    } else if c == '–' {
      UnescapeEntity("&ndash;", rest);
    } else if c == '—' {
      UnescapeEntity("&mdash;", rest);
    } else if c == '&' {
      UnescapeEntity("&amp;", rest);
    } else if c == '>' {
      UnescapeEntity("&gt;", rest);
    } else if c == '<' {
      UnescapeEntity("&lt;", rest);
    } else {
      UnescapePlain(c, rest);
    }
  }

  /** An entity, or a line break, reads back as its character. */
  lemma UnescapeEntity(e: string, rest: string)
    requires e in {"<br>", "&ndash;", "&mdash;", "&amp;", "&gt;", "&lt;"}
    ensures Unescape(e + rest) ==
      (if e == "<br>" then "\n" else if e == "&ndash;" then "–" else if e == "&mdash;" then "—"
       else if e == "&amp;" then "&" else if e == "&gt;" then ">" else "<") + Unescape(rest)
  {
    var t := e + rest;
    assert t[..|e|] == e && t[|e|..] == rest;
    assert t[0] == e[0] && t[1] == e[1];
  }

  /** Any other character reads back as itself. */
  lemma UnescapePlain(c: char, rest: string)
    requires c != '<' && c != '&'
    ensures Unescape([c] + rest) == [c] + Unescape(rest)
  {
    var t := [c] + rest;
    assert t[0] == c && t[1..] == rest;
  }

  /** Escaping loses nothing: the page shows exactly the original text. */
  lemma {:induction false} EscapeRoundTrip(s: string)
    ensures Unescape(Escape(s)) == s
    decreases |s|
  {
    if s != [] {
      UnescapeStep(s[0], Escape(s[1..]));
      EscapeRoundTrip(s[1..]);
      assert s == [s[0]] + s[1..];
    }
  }

  /** After escaping, angle brackets come only from the line breaks. */
  lemma {:induction false} EscapeAngles(s: string)
    ensures '<' in Escape(s) <==> '\n' in s
    ensures '>' in Escape(s) <==> '\n' in s
    decreases |s|
  {
    if s != [] {
      EscapeAngles(s[1..]);
      var e := EscapeChar(s[0]);
      assert '<' in e <==> s[0] == '\n' by {
        if s[0] == '\n' { assert e[0] == '<'; }
      }
      assert '>' in e <==> s[0] == '\n' by {
        if s[0] == '\n' { assert e[3] == '>'; }
      }
      assert '\n' in s <==> s[0] == '\n' || '\n' in s[1..] by {
        assert s == [s[0]] + s[1..];
      }
    }
  }

  // ---------------------------------------------------------------------
  // Section statuses and how the table shows them

  /** The "section status" the JSON formatter stored for an entry. */
  function SectionStatus(e: Json.SectionEntry): (r: string)
    ensures r == "ok" <==> e.Compared? && e.ok
    ensures r == "error" <==> e.Compared? && !e.ok
  {
    match e
    case ExecErrorEntry => "exec_error"
    case MissingEntry => "missing"
    case Compared(ok, _, _, _, _) => if ok then "ok" else "error"
  }

  datatype Color = Green | Red | Orange | Black

  datatype Shown = Shown(color: Color, text: string)

  /**
   * `_print_section_status`: the colour and text of a table cell. Only the
   * newer generation knows "exec_error" and shows it as "execution failed".
   */
  function StatusDisplay(status: string, newer: bool): Shown {
    if status == "ok" then Shown(Green, status)
    else if status == "error" then Shown(Red, status)
    else if newer && status == "exec_error" then Shown(Red, "execution failed")
    else if status == "missing" then Shown(Orange, status)
    else Shown(Black, status)
  }

  /**
   * Green means "ok", red an error or a failed execution, orange a missing
   * section; the text is the status itself except for a failed execution.
   */
  lemma StatusColors(status: string, newer: bool)
    ensures var d := StatusDisplay(status, newer);
      (d.color == Green <==> status == "ok") &&
      (d.color == Red <==> status == "error" || (newer && status == "exec_error")) &&
      (d.color == Orange <==> status == "missing") &&
      (d.text == status <==> !(newer && status == "exec_error"))
  {
  }

  /** The two generations show a cell alike unless the section was not run. */
  lemma StatusGenerations(status: string)
    ensures StatusDisplay(status, true) == StatusDisplay(status, false) <==> status != "exec_error"
  {
  }

  // ---------------------------------------------------------------------
  // The table header

  const TestHead := "TEST"

  /** The section names of the tests, test after test, in the order of their maps. */
  function SectionNames(tests: seq<Json.TestRecord>): seq<string> {
    if tests == [] then []
    else
      var t := tests[|tests| - 1];
      SectionNames(tests[..|tests| - 1]) + (if t.sections.Some? then Keys(t.sections.value) else [])
  }

  lemma NamesSnoc(tests: seq<Json.TestRecord>, i: nat)
    requires i < |tests| && tests[i].sections.Some?
    ensures Lead(tests) + SectionNames(tests[..i + 1]) == Lead(tests) + SectionNames(tests[..i]) + Keys(tests[i].sections.value)
    ensures AllExecuted(tests[..i]) ==> AllExecuted(tests[..i + 1])
  {
    assert tests[..i + 1][..i] == tests[..i];
  }

  /** Every test reached its execution: its record has a "sections" entry. */
  predicate AllExecuted(tests: seq<Json.TestRecord>) {
    forall i :: 0 <= i < |tests| ==> tests[i].sections.Some?
  }

  /** The header starts with "TEST" only when there are several tests. */
  function Lead(tests: seq<Json.TestRecord>): seq<string> {
    if |tests| > 1 then [TestHead] else []
  }

  /**
   * `_tests_table_header_builder`: "TEST" when there are several tests,
   * then every section name not yet in the header; `test["sections"]`
   * raises for a test that has none.
   */
  function HeaderOf(tests: seq<Json.TestRecord>): Outcome<seq<string>> {
    if AllExecuted(tests) then Returned(Dedup(Lead(tests) + SectionNames(tests))) else Raised(KeyError)
  }

  /**
   * The header names each column once, exactly the section names (and
   * "TEST"), and has "TEST" first and only there when there are several tests.
   */
  lemma HeaderShape(tests: seq<Json.TestRecord>)
    requires AllExecuted(tests)
    ensures var h := HeaderOf(tests).value;
      (forall i, j :: 0 <= i < j < |h| ==> h[i] != h[j]) &&
      (forall x :: x in h <==> x in Lead(tests) || x in SectionNames(tests)) &&
      (|tests| > 1 ==> |h| >= 1 && h[0] == TestHead && TestHead !in h[1..]) &&
      (|tests| <= 1 ==> h == Dedup(SectionNames(tests)))
  {
    var h := HeaderOf(tests).value;
    if |tests| > 1 {
      assert [TestHead][..0] == [];
      assert Dedup([TestHead]) == [TestHead];
      DedupExtends([TestHead], SectionNames(tests));
      assert h[0] == TestHead;
      assert forall j :: 1 <= j < |h| ==> h[j] != h[0];
    } else {
      assert Lead(tests) + SectionNames(tests) == SectionNames(tests);
    }
  }

  /** The header of a failed run: only a test that never executed makes it raise. */
  lemma HeaderFails(tests: seq<Json.TestRecord>)
    ensures HeaderOf(tests).Raised? <==> exists i :: 0 <= i < |tests| && tests[i].sections.None?
  {
  }

  // ---------------------------------------------------------------------
  // The table rows

  /** The status of section `el` of a test, or "" when the test has no such section. */
  function StatusAt(t: Json.TestRecord, el: string): string {
    if t.sections.Some? && Get(t.sections.value, el).Some? then SectionStatus(Get(t.sections.value, el).value) else ""
  }

  /** The statuses of a row, one per column but "TEST". */
  function RowCells(t: Json.TestRecord, header: seq<string>): seq<string> {
    if header == [] then []
    else
      var prev := RowCells(t, header[..|header| - 1]);
      var el := header[|header| - 1];
      if el == TestHead then prev else prev + [StatusAt(t, el)]
  }

  function Somes(xs: seq<string>): (r: seq<Option<string>>)
    ensures |r| == |xs| && forall i :: 0 <= i < |xs| ==> r[i] == Some(xs[i])
  {
    seq(|xs|, i requires 0 <= i < |xs| => Some(xs[i]))
  }

  lemma SomesSnoc(xs: seq<string>, x: string)
    ensures Somes(xs + [x]) == Somes(xs) + [Some(x)]
  {
  }

  /** `_test_table_row_builder`: the title when there are several tests, then the statuses. */
  function RowOf(t: Json.TestRecord, header: seq<string>, many: bool): seq<Option<string>> {
    (if many then [t.title] else []) + Somes(RowCells(t, header))
  }

  lemma {:induction false} RowCellsColumns(t: Json.TestRecord, h: seq<string>)
    requires TestHead !in h
    ensures |RowCells(t, h)| == |h|
    ensures forall j :: 0 <= j < |h| ==> RowCells(t, h)[j] == StatusAt(t, h[j])
    decreases |h|
  {
    if h != [] {
      RowCellsColumns(t, h[..|h| - 1]);
    }
  }

  lemma {:induction false} RowCellsFrom(t: Json.TestRecord, a: seq<string>, b: seq<string>)
    ensures RowCells(t, a + b) == RowCells(t, a) + RowCells(t, b)
    decreases |b|
  {
    if b == [] {
      assert a + b == a;
    } else {
      var b' := b[..|b| - 1];
      RowCellsFrom(t, a, b');
      assert (a + b)[..|a + b| - 1] == a + b';
    }
  }

  lemma RowCellsAfterHead(t: Json.TestRecord, h: seq<string>)
    requires |h| >= 1 && h[0] == TestHead
    ensures RowCells(t, h) == RowCells(t, h[1..])
  {
    RowCellsFrom(t, [h[0]], h[1..]);
    assert [h[0]] + h[1..] == h;
    assert [h[0]][..0] == [];
  }

  /** The columns of a row when "TEST" heads the header: the title, then the statuses. */
  lemma RowColumnsMany(t: Json.TestRecord, h: seq<string>)
    requires |h| >= 1 && h[0] == TestHead && TestHead !in h[1..]
    ensures var row := RowOf(t, h, true);
      |row| == |h| && row[0] == t.title && forall j :: 1 <= j < |h| ==> row[j] == Some(StatusAt(t, h[j]))
  {
    RowCellsAfterHead(t, h);
    RowCellsColumns(t, h[1..]);
    var cells := RowCells(t, h);
    var row := RowOf(t, h, true);
    assert row == [t.title] + Somes(cells);
    forall j | 1 <= j < |h|
      ensures row[j] == Some(StatusAt(t, h[j]))
    {
      assert row[j] == Somes(cells)[j - 1] == Some(cells[j - 1]);
      assert h[1..][j - 1] == h[j];
    }
  }

  /** The columns of a row when "TEST" is not in the header: the statuses alone. */
  lemma RowColumnsSingle(t: Json.TestRecord, h: seq<string>)
    requires TestHead !in h
    ensures var row := RowOf(t, h, false);
      |row| == |h| && forall j :: 0 <= j < |h| ==> row[j] == Some(StatusAt(t, h[j]))
  {
    RowCellsColumns(t, h);
    assert RowOf(t, h, false) == Somes(RowCells(t, h));
  }

  /**
   * When no section is called "TEST", a row has one field per column: the
   * title under "TEST" and the status of the section, or "", under the others.
   */
  lemma RowShape(tests: seq<Json.TestRecord>, t: Json.TestRecord)
    requires AllExecuted(tests) && TestHead !in SectionNames(tests)
    ensures var h := HeaderOf(tests).value;
      var row := RowOf(t, h, |tests| > 1);
      |row| == |h| &&
      (|tests| > 1 ==> row[0] == t.title && forall j :: 1 <= j < |h| ==> row[j] == Some(StatusAt(t, h[j]))) &&
      (|tests| <= 1 ==> forall j :: 0 <= j < |h| ==> row[j] == Some(StatusAt(t, h[j])))
  {
    HeaderShape(tests);
    if |tests| > 1 {
      RowColumnsMany(t, HeaderOf(tests).value);
    } else {
      RowColumnsSingle(t, HeaderOf(tests).value);
    }
  }

  // ---------------------------------------------------------------------
  // The summary counters

  datatype Counts = Counts(ok: nat, warning: nat, error: nat)

  const Zero := Counts(0, 0, 0)

  function Size(c: Counts): nat { c.ok + c.warning + c.error }

  /**
   * One more section counted: "ok" is a success, "error" an error and so,
   * in the newer generation only, is "exec_error"; anything else a warning.
   */
  function Bump(c: Counts, status: string, newer: bool): (r: Counts)
    ensures Size(r) == Size(c) + 1
    ensures status == "ok" ==> r.ok == c.ok + 1 && r.warning == c.warning && r.error == c.error
    ensures (status == "error" || (newer && status == "exec_error")) ==>
      r.ok == c.ok && r.warning == c.warning && r.error == c.error + 1
    ensures status != "ok" && status != "error" && !(newer && status == "exec_error") ==>
      r.ok == c.ok && r.warning == c.warning + 1 && r.error == c.error
  {
    if status == "ok" then c.(ok := c.ok + 1)
    else if status == "error" || (newer && status == "exec_error") then c.(error := c.error + 1)
    else c.(warning := c.warning + 1)
  }

  /** The generations count a section alike unless it was not run. */
  lemma BumpGenerations(c: Counts, status: string)
    ensures Bump(c, status, true) == Bump(c, status, false) <==> status != "exec_error"
  {
  }

  /** `section_summary` and `total_summary`. */
  datatype Globals = Globals(sections: map<string, Counts>, total: Counts)

  /** The first loop of `end_session`: zero the counters of every column but "TEST". */
  function Reset(g: Globals, header: seq<string>): (r: Globals)
    ensures r.total == g.total
    ensures forall x :: x in r.sections <==> x in g.sections || (x in header && x != TestHead)
    ensures forall x :: x in header && x != TestHead ==> r.sections[x] == Zero
    ensures forall x :: x in g.sections && (x !in header || x == TestHead) ==> r.sections[x] == g.sections[x]
  {
    if header == [] then g
    else
      var r := Reset(g, header[..|header| - 1]);
      var el := header[|header| - 1];
      assert header == header[..|header| - 1] + [el];
      if el == TestHead then r else r.(sections := r.sections[el := Zero])
  }

  /** The counters after one section of one test was tallied. */
  function Tally(g: Globals, section: string, status: string, newer: bool): Globals
    requires section in g.sections
  {
    Globals(g.sections[section := Bump(g.sections[section], status, newer)], Bump(g.total, status, newer))
  }

  /** The number of columns but "TEST". */
  function Columns(header: seq<string>): nat {
    if header == [] then 0
    else Columns(header[..|header| - 1]) + (if header[|header| - 1] == TestHead then 0 else 1)
  }

  // ---------------------------------------------------------------------
  // The printed page

  datatype Block =
    | Preamble
    | TestsHeader(heads: seq<string>)
    /** A row of the results table: the escaped title, as a link, when there are several tests. */
    | TestsRow(link: Option<string>, cells: seq<Shown>)
    /** The "Info" heading, printed by the newer generation only. */
    | InfoHead
    | ErrorMessage(message: string)
    | Rule
    | TestName(title: string)
    | CommandLine(text: string)
    | InputText(text: string)
    | InputFile(name: string, text: string)
    | StatusLine(color: Color, section: string, message: string)
    | SummaryHead
    | SummaryRow(name: string, counts: Counts)
    | Close

  /** A stretch of printing and the exception that ended it, if one did. */
  datatype Printed = Printed(blocks: seq<Block>, err: Option<PyError>)

  function EscapeAll(xs: seq<string>): (r: seq<string>)
    ensures |r| == |xs| && forall i :: 0 <= i < |xs| ==> r[i] == Escape(xs[i])
  {
    seq(|xs|, i requires 0 <= i < |xs| => Escape(xs[i]))
  }

  /** `_print_section_status` for one cell: its colour and its escaped text. */
  function ShowOne(status: string, newer: bool): Shown {
    Shown(StatusDisplay(status, newer).color, Escape(StatusDisplay(status, newer).text))
  }

  function ShowAll(statuses: seq<string>, newer: bool): (r: seq<Shown>)
    ensures |r| == |statuses| && forall i :: 0 <= i < |statuses| ==> r[i] == ShowOne(statuses[i], newer)
  {
    seq(|statuses|, i requires 0 <= i < |statuses| => ShowOne(statuses[i], newer))
  }

  lemma ShowAllSnoc(xs: seq<string>, x: string, newer: bool)
    ensures ShowAll(xs + [x], newer) == ShowAll(xs, newer) + [ShowOne(x, newer)]
  {
  }

  /** The printed row of one test; `row[0].translate` raises when the title is `None`. */
  function RowBlock(t: Json.TestRecord, header: seq<string>, many: bool, newer: bool): Outcome<Block> {
    if many && t.title.None? then Raised(AttributeError)
    else Returned(TestsRow(if many then Some(Escape(t.title.value)) else None, ShowAll(RowCells(t, header), newer)))
  }

  /** `_print_tests_table_rows`: one row per test, up to the first that raises. */
  function RowBlocks(tests: seq<Json.TestRecord>, header: seq<string>, many: bool, newer: bool): Printed {
    if tests == [] then Printed([], None)
    else
      var p := RowBlocks(tests[..|tests| - 1], header, many, newer);
      if p.err.Some? then p
      else match RowBlock(tests[|tests| - 1], header, many, newer)
        case Raised(e) => Printed(p.blocks, Some(e))
        case Returned(b) => Printed(p.blocks + [b], None)
  }

  /** Only row blocks are printed, and every row prints exactly when, with several tests, each has a title. */
  lemma {:induction false} RowBlocksShape(tests: seq<Json.TestRecord>, header: seq<string>, many: bool, newer: bool)
    ensures var r := RowBlocks(tests, header, many, newer);
      forall i :: 0 <= i < |r.blocks| ==> r.blocks[i].TestsRow?
    ensures RowBlocks(tests, header, many, newer).err.None? <==>
      (many ==> forall i :: 0 <= i < |tests| ==> tests[i].title.Some?)
  {
    if tests != [] {
      var init := tests[..|tests| - 1];
      var last := tests[|tests| - 1];
      RowBlocksShape(init, header, many, newer);
      var p := RowBlocks(init, header, many, newer);
      assert forall i :: 0 <= i < |init| ==> init[i] == tests[i];
      if p.err.None? && RowBlock(last, header, many, newer).Returned? {
        var b := RowBlock(last, header, many, newer).value;
        assert RowBlocks(tests, header, many, newer).blocks == p.blocks + [b];
      }
    }
  }

  /** `_print_command_line`: every argument preceded by a space. */
  function CommandText(args: seq<string>): string {
    if args == [] then ""
    else CommandText(args[..|args| - 1]) + " " + args[|args| - 1]
  }

  lemma {:induction false} JoinSnoc(xs: seq<string>, y: string)
    requires xs != []
    ensures Join(" ", xs + [y]) == Join(" ", xs) + " " + y
    decreases |xs|
  {
    if |xs| == 1 {
      assert (xs + [y])[1..] == [y];
    } else {
      JoinSnoc(xs[1..], y);
      assert (xs + [y])[1..] == xs[1..] + [y];
    }
  }

  /** The command line shown is the arguments joined by spaces, after one leading space. */
  lemma {:induction false} CommandTextJoin(args: seq<string>)
    ensures CommandText(args) == if args == [] then "" else " " + Join(" ", args)
    decreases |args|
  {
    if args != [] {
      var a := args[..|args| - 1];
      CommandTextJoin(a);
      if a == [] {
        assert args == [args[0]];
      } else {
        JoinSnoc(a, args[|args| - 1]);
        assert a + [args[|args| - 1]] == args;
      }
    }
  }

  /** `_print_input_file_name`: the temporary file is named in the report's language. */
  function FileLabel(name: string, newer: bool): string {
    if name == "<temp.file>" then (if newer then "TEMPORARY FILE" else "File Temporaneo") else name
  }

  /**
   * The message for one wrong line: its number when it is unexpected, the
   * expected text when it is missing, both texts otherwise; the older
   * generation words it in Italian and, for a missing line, shows the
   * line's number where its text belongs.
   */
  function WrongLineMessage(w: Json.WrongLine, newer: bool): string {
    var n := NatToString(w.n + 1);
    if w.expected.None? then
      (if newer then "unexpected line '" + n + "'" else "riga " + n + " inattesa")
    else if w.got.None? then
      (if newer then "missing line (expected '" + w.expected.value + "')"
       else LegacyMissingLineAsWritten(w))
    else if newer then "line " + n + " is wrong  (expected '" + w.expected.value + "', got '" + w.got.value + "')"
    else "riga " + n + " errata (atteso '" + w.expected.value + "', ottenuto '" + w.got.value + "')"
  }

  /**
   * The older generation's message for a missing line as written: `format`
   * receives the line number first, so the only placeholder shows the
   * number instead of the expected text.
   */
  function LegacyMissingLineAsWritten(w: Json.WrongLine): string {
    "riga mancante (atteso '" + NatToString(w.n + 1) + "')"
  }

  /** The older generation's message for a missing line as evidently intended. */
  function LegacyMissingLine(w: Json.WrongLine): string
    requires w.expected.Some?
  {
    "riga mancante (atteso '" + w.expected.value + "')"
  }

  /** The intended message shows the expected text. */
  lemma LegacyMissingLineMentions(w: Json.WrongLine)
    requires w.expected.Some?
    ensures Contains(LegacyMissingLine(w), w.expected.value)
  {
    ContainsMiddle("riga mancante (atteso '", w.expected.value, "')");
  }

  lemma WrongLineMentionsBoth(w: Json.WrongLine, newer: bool)
    requires w.expected.Some? && w.got.Some?
    ensures Contains(WrongLineMessage(w, newer), w.expected.value)
    ensures Contains(WrongLineMessage(w, newer), w.got.value)
  {
    var n := NatToString(w.n + 1);
    var x := w.expected.value;
    var g := w.got.value;
    var m := WrongLineMessage(w, newer);
    if newer {
      var a := "line " + n + " is wrong  (expected '";
      assert m == a + x + ("', got '" + g + "')");
      ContainsMiddle(a, x, "', got '" + g + "')");
      assert m == a + x + "', got '" + g + "')";
      ContainsMiddle(a + x + "', got '", g, "')");
    } else {
      var a := "riga " + n + " errata (atteso '";
      assert m == a + x + ("', ottenuto '" + g + "')");
      ContainsMiddle(a, x, "', ottenuto '" + g + "')");
      assert m == a + x + "', ottenuto '" + g + "')";
      ContainsMiddle(a + x + "', ottenuto '", g, "')");
    }
  }

  /**
   * Every message shows what it is about: the expected text whenever there
   * is one (except in the older message for a missing line, which shows the
   * number instead), the generated text when both are there, and otherwise
   * the number.
   */
  lemma WrongLineMentions(w: Json.WrongLine, newer: bool)
    ensures var m := WrongLineMessage(w, newer);
      (w.expected.Some? && (newer || w.got.Some?) ==> Contains(m, w.expected.value)) &&
      (w.expected.Some? && w.got.Some? ==> Contains(m, w.got.value)) &&
      (w.expected.None? || (!newer && w.got.None?) ==> Contains(m, NatToString(w.n + 1)))
  {
    var n := NatToString(w.n + 1);
    if w.expected.None? {
      if newer { ContainsMiddle("unexpected line '", n, "'"); } else { ContainsMiddle("riga ", n, " inattesa"); }
    } else if w.got.None? {
      var x := w.expected.value;
      if newer { ContainsMiddle("missing line (expected '", x, "')"); } else { ContainsMiddle("riga mancante (atteso '", n, "')"); }
    } else {
      WrongLineMentionsBoth(w, newer);
    }
  }

  /** As written, the missing line "x" of line 1 is reported without its text. */
  lemma MissingLineCounterexample()
    ensures var w := Json.WrongLine(0, None, Some("x"));
      WrongLineMessage(w, false) == "riga mancante (atteso '1')" &&
      !Contains(WrongLineMessage(w, false), "x") &&
      LegacyMissingLine(w) == "riga mancante (atteso 'x')"
  {
    var w := Json.WrongLine(0, None, Some("x"));
    MissingLineNumbered(w);
    LacksText("riga mancante (atteso '1')", 'x');
    MissingLineExpected(w);
  }

  lemma MissingLineNumbered(w: Json.WrongLine)
    requires w.n == 0
    ensures LegacyMissingLineAsWritten(w) == "riga mancante (atteso '1')"
  {
    assert NatToString(1) == "1";
  }

  lemma MissingLineExpected(w: Json.WrongLine)
    requires w.expected == Some("x")
    ensures LegacyMissingLine(w) == "riga mancante (atteso 'x')"
  {
  }

  lemma LacksText(m: string, c: char)
    requires c !in m
    ensures !Contains(m, [c])
  {
    if Contains(m, [c]) {
      ContainsHead(m, [c]);
    }
  }

  /** `_print_section_error_message` for every wrong line of a section. */
  function WrongLineBlocks(ws: seq<Json.WrongLine>, section: string, newer: bool): (r: seq<Block>)
    ensures |r| == |ws|
    ensures forall i :: 0 <= i < |ws| ==> r[i] == StatusLine(Red, section, WrongLineMessage(ws[i], newer))
  {
    seq(|ws|, i requires 0 <= i < |ws| => StatusLine(Red, section, WrongLineMessage(ws[i], newer)))
  }

  /** The lines printed for one section of one test, by its entry. */
  function SectionLines(e: Json.SectionEntry, section: string, newer: bool): seq<Block> {
    match e
    case Compared(ok, _, _, ws, _) =>
      if ok then [StatusLine(Green, section, "OK")] else WrongLineBlocks(ws, section, newer)
    case ExecErrorEntry =>
      if newer then [StatusLine(Red, section, "execution failed")] else [StatusLine(Orange, section, "missing section")]
    case MissingEntry => [StatusLine(Orange, section, "missing section")]
  }

  /** A stretch of printing that also moves the counters. */
  datatype Step = Step(blocks: seq<Block>, globals: Globals, err: Option<PyError>)

  /** The test has an entry for the section. */
  predicate HasSection(t: Json.TestRecord, section: string) {
    t.sections.Some? && Get(t.sections.value, section).Some?
  }

  /**
   * `_print_section_status_message`: `test["sections"][section]` raises for
   * a section the test lacks; otherwise the section is tallied and its lines printed.
   */
  function SectionInfo(t: Json.TestRecord, section: string, g: Globals, newer: bool): (r: Step)
    ensures r.globals.sections.Keys == g.sections.Keys
  {
    if !HasSection(t, section) || section !in g.sections then Step([], g, Some(KeyError))
    else
      var e := Get(t.sections.value, section).value;
      Step(SectionLines(e, section, newer), Tally(g, section, SectionStatus(e), newer), None)
  }

  /** The sections of one test, column by column, up to the first that raises. */
  function SectionsInfo(t: Json.TestRecord, header: seq<string>, g: Globals, newer: bool): (r: Step)
    ensures r.globals.sections.Keys == g.sections.Keys
  {
    if header == [] then Step([], g, None)
    else
      var p := SectionsInfo(t, header[..|header| - 1], g, newer);
      var el := header[|header| - 1];
      if p.err.Some? || el == TestHead then p
      else
        var s := SectionInfo(t, el, p.globals, newer);
        Step(p.blocks + s.blocks, s.globals, s.err)
  }

  /** The details of a test printed before its sections; `None` title or file text raise. */
  function TestPreface(t: Json.TestRecord, many: bool, newer: bool): Printed {
    if many && t.title.None? then Printed([Rule], Some(AttributeError))
    else
      var name := if many then [TestName(Escape(t.title.value))] else [];
      var cmd := [CommandLine(Escape(CommandText(t.commandLine)))];
      var input := if |t.inputText| > 0 then [InputText(Escape(t.inputText))] else [];
      if t.inputFileName.Some? && t.fileText.None? then Printed([Rule] + name + cmd + input, Some(AttributeError))
      else
        var file := if t.inputFileName.Some? then [InputFile(Escape(FileLabel(t.inputFileName.value, newer)), Escape(t.fileText.value))] else [];
        Printed([Rule] + name + cmd + input + file, None)
  }

  /** `_print_test_information`. */
  function TestInfo(t: Json.TestRecord, header: seq<string>, g: Globals, many: bool, newer: bool): (r: Step)
    ensures r.globals.sections.Keys == g.sections.Keys
  {
    var pre := TestPreface(t, many, newer);
    if pre.err.Some? then Step(pre.blocks, g, pre.err)
    else
      var s := SectionsInfo(t, header, g, newer);
      Step(pre.blocks + s.blocks, s.globals, s.err)
  }

  /** The details of every test, up to the first that raises. */
  function TestsInfo(tests: seq<Json.TestRecord>, header: seq<string>, g: Globals, many: bool, newer: bool): (r: Step)
    ensures r.globals.sections.Keys == g.sections.Keys
  {
    if tests == [] then Step([], g, None)
    else
      var p := TestsInfo(tests[..|tests| - 1], header, g, many, newer);
      if p.err.Some? then p
      else
        var s := TestInfo(tests[|tests| - 1], header, p.globals, many, newer);
        Step(p.blocks + s.blocks, s.globals, s.err)
  }

  /** `print_summary_table`: a row per column but "TEST", then the totals. */
  function SummaryRows(header: seq<string>, g: Globals): (r: seq<Block>)
    requires forall x :: x in header && x != TestHead ==> x in g.sections
    ensures |r| == Columns(header)
    ensures forall i :: 0 <= i < |r| ==>
      r[i].SummaryRow? && r[i].name in header && r[i].name != TestHead && r[i].counts == g.sections[r[i].name]
  {
    if header == [] then []
    else
      var el := header[|header| - 1];
      SummaryRows(header[..|header| - 1], g) + (if el == TestHead then [] else [SummaryRow(el, g.sections[el])])
  }

  function SummaryBlocks(header: seq<string>, g: Globals): seq<Block>
    requires forall x :: x in header && x != TestHead ==> x in g.sections
  {
    [SummaryHead] + SummaryRows(header, g) + [SummaryRow("TOTAL", g.total)]
  }

  /** Every column but "TEST" has its counters. */
  predicate Counted(h: seq<string>, g: Globals) {
    forall x :: x in h && x != TestHead ==> x in g.sections
  }

  /** How `end_session` ends when it does not return: an exception or `exit(code)`. */
  datatype Stop = Failed(error: PyError) | Exited(code: int)

  datatype EndResult = EndResult(printed: seq<Block>, globals: Globals, stop: Option<Stop>)

  /**
   * `end_session` of the HTML formatter over the tests the JSON formatter
   * collected. When the first test's execution did not succeed, only its
   * message is printed and the program exits with status 0.
   */
  function OnEndSession(tests: seq<Json.TestRecord>, g: Globals, newer: bool): EndResult {
    match HeaderOf(tests)
    case Raised(e) => EndResult([], g, Some(Failed(e)))
    case Returned(h) => AfterHeader(tests, h, Reset(g, h), newer)
  }

  /** The results table, once the header is built and its counters zeroed. */
  function AfterHeader(tests: seq<Json.TestRecord>, h: seq<string>, g: Globals, newer: bool): EndResult
    requires Counted(h, g)
  {
    var rows := RowBlocks(tests, h, |tests| > 1, newer);
    var top := [Preamble, TestsHeader(EscapeAll(h))] + rows.blocks;
    if rows.err.Some? then EndResult(top, g, Some(Failed(rows.err.value)))
    else Information(tests, h, g, top + (if newer then [InfoHead] else []), newer)
  }

  /** How the page ends once the header is built: the normal end and the `exit(0)`. */
  lemma AfterHeaderEnds(tests: seq<Json.TestRecord>, h: seq<string>, g: Globals, newer: bool)
    requires Counted(h, g)
    ensures var r := AfterHeader(tests, h, g, newer);
      r.stop.None? ==>
        r.globals == TestsInfo(tests, h, g, |tests| > 1, newer).globals &&
        TestsInfo(tests, h, g, |tests| > 1, newer).err.None?
    ensures var r := AfterHeader(tests, h, g, newer);
      r.stop == Some(Exited(0)) <==>
        (|tests| > 1 ==> forall i :: 0 <= i < |tests| ==> tests[i].title.Some?) &&
        tests != [] && tests[0].exec.Some? && tests[0].exec.value.errorMessage != "ok"
    ensures var r := AfterHeader(tests, h, g, newer);
      r.stop == Some(Exited(0)) ==>
        r.globals == g && SummaryHead !in r.printed && |r.printed| >= 2 && r.printed[|r.printed| - 2..] == [Rule, Close] &&
        ErrorMessage(tests[0].exec.value.errorMessage) in r.printed
  {
    var rows := RowBlocks(tests, h, |tests| > 1, newer);
    RowBlocksShape(tests, h, |tests| > 1, newer);
    var top := [Preamble, TestsHeader(EscapeAll(h))] + rows.blocks;
    assert forall i :: 0 <= i < |top| ==> top[i] != SummaryHead;
  }

  /** `print_tests_information` and `print_summary_table`, after `top` was printed. */
  function Information(tests: seq<Json.TestRecord>, h: seq<string>, g: Globals, top: seq<Block>, newer: bool): (r: EndResult)
    requires Counted(h, g)
    ensures r.stop.None? ==> r.globals == TestsInfo(tests, h, g, |tests| > 1, newer).globals
    ensures r.stop.None? ==> TestsInfo(tests, h, g, |tests| > 1, newer).err.None?
    ensures r.stop == Some(Exited(0)) <==> tests != [] && tests[0].exec.Some? && tests[0].exec.value.errorMessage != "ok"
    ensures r.stop == Some(Exited(0)) ==>
      r.globals == g && r.printed == top + [Rule, ErrorMessage(tests[0].exec.value.errorMessage), Rule, Close]
  {
    if tests == [] then EndResult(top, g, Some(Failed(IndexError)))
    else if tests[0].exec.None? then EndResult(top, g, Some(Failed(KeyError)))
    else if tests[0].exec.value.errorMessage != "ok" then
      EndResult(top + [Rule, ErrorMessage(tests[0].exec.value.errorMessage), Rule, Close], g, Some(Exited(0)))
    else
      var info := TestsInfo(tests, h, g, |tests| > 1, newer);
      if info.err.Some? then EndResult(top + info.blocks, info.globals, Some(Failed(info.err.value)))
      else EndResult(top + info.blocks + [Rule] + SummaryBlocks(h, info.globals) + [Close], info.globals, None)
  }

  // ---------------------------------------------------------------------
  // What the end of a session does to the counters

  predicate Distinct(h: seq<string>) {
    forall i, j :: 0 <= i < j < |h| ==> h[i] != h[j]
  }

  /** The details of a test print without raising. */
  predicate TestReady(t: Json.TestRecord, h: seq<string>, many: bool) {
    (many ==> t.title.Some?) &&
    (t.inputFileName.Some? ==> t.fileText.Some?) &&
    (forall x :: x in h && x != TestHead ==> HasSection(t, x))
  }

  /** The sections of a test print without raising exactly when the test has every column. */
  lemma {:induction false} SectionsInfoSucceeds(t: Json.TestRecord, h: seq<string>, g: Globals, newer: bool)
    requires Counted(h, g)
    ensures SectionsInfo(t, h, g, newer).err.None? <==> forall x :: x in h && x != TestHead ==> HasSection(t, x)
    decreases |h|
  {
    if h != [] {
      var h' := h[..|h| - 1];
      assert h == h' + [h[|h| - 1]];
      SectionsInfoSucceeds(t, h', g, newer);
    }
  }

  /**
   * Printing the sections of a test counts each column but "TEST" once:
   * one more for each such section and for the total, nothing else changed.
   */
  lemma {:induction false} SectionsInfoTally(t: Json.TestRecord, h: seq<string>, g: Globals, newer: bool)
    requires Distinct(h) && Counted(h, g)
    requires SectionsInfo(t, h, g, newer).err.None?
    ensures var r := SectionsInfo(t, h, g, newer).globals;
      Size(r.total) == Size(g.total) + Columns(h) &&
      (forall x :: x in h && x != TestHead ==> Size(r.sections[x]) == Size(g.sections[x]) + 1) &&
      (forall x :: x in g.sections && (x !in h || x == TestHead) ==> r.sections[x] == g.sections[x])
    decreases |h|
  {
    SectionsInfoAdds(t, h, g, newer);
    assert 1 * Columns(h) == Columns(h);
  }

  lemma {:induction false} SectionsInfoAdds(t: Json.TestRecord, h: seq<string>, g: Globals, newer: bool)
    requires Distinct(h) && Counted(h, g)
    requires SectionsInfo(t, h, g, newer).err.None?
    ensures AddedPerColumn(g, SectionsInfo(t, h, g, newer).globals, h, 1)
    decreases |h|
  {
    if h == [] {
      assert 1 * Columns(h) == 0;
    } else {
      var h' := h[..|h| - 1];
      var el := h[|h| - 1];
      assert h == h' + [el];
      SectionsInfoLast(t, h, g, newer);
      DistinctLast(h);
      assert Counted(h', g) by {
        forall x | x in h' ensures x in h {
        }
      }
      SectionsInfoAdds(t, h', g, newer);
      var p := SectionsInfo(t, h', g, newer).globals;
      if el == TestHead {
        TestColumnAddsNothing(g, p, h');
      } else {
        assert el in g.sections by {
          assert el in h;
        }
        TallyAddsColumn(g, p, h', el, SectionStatus(Get(t.sections.value, el).value), newer);
      }
    }
  }

  /** How the last column of `h` changes the counters, when no column raised. */
  lemma SectionsInfoLast(t: Json.TestRecord, h: seq<string>, g: Globals, newer: bool)
    requires h != [] && SectionsInfo(t, h, g, newer).err.None?
    ensures var el := h[|h| - 1];
      var p := SectionsInfo(t, h[..|h| - 1], g, newer);
      var r := SectionsInfo(t, h, g, newer).globals;
      p.err.None? &&
      (el == TestHead ==> r == p.globals) &&
      (el != TestHead ==> HasSection(t, el) && el in p.globals.sections &&
                          r == Tally(p.globals, el, SectionStatus(Get(t.sections.value, el).value), newer))
  {
  }

  lemma DistinctLast(h: seq<string>)
    requires h != [] && Distinct(h)
    ensures Distinct(h[..|h| - 1]) && h[|h| - 1] !in h[..|h| - 1]
  {
    var h' := h[..|h| - 1];
    forall i | 0 <= i < |h'| ensures h'[i] != h[|h| - 1] {
      assert h'[i] == h[i];
    }
  }

  lemma TestColumnAddsNothing(g: Globals, p: Globals, h: seq<string>)
    requires AddedPerColumn(g, p, h, 1)
    ensures AddedPerColumn(g, p, h + [TestHead], 1)
  {
    var h1 := h + [TestHead];
    assert Columns(h1) == Columns(h) by {
      assert h1[..|h1| - 1] == h;
    }
    assert forall x :: x in h1 <==> x in h || x == TestHead;
  }

  lemma TallyAddsColumn(g: Globals, p: Globals, h: seq<string>, el: string, status: string, newer: bool)
    requires el != TestHead && el !in h && el in g.sections && el in p.sections
    requires AddedPerColumn(g, p, h, 1)
    ensures AddedPerColumn(g, Tally(p, el, status, newer), h + [el], 1)
  {
    var r := Tally(p, el, status, newer);
    var h1 := h + [el];
    assert Columns(h1) == Columns(h) + 1 by {
      assert h1[..|h1| - 1] == h;
    }
    assert forall x :: x in h1 <==> x in h || x == el;
    forall x | x in h1 && x != TestHead
      ensures x in r.sections && x in g.sections && Size(r.sections[x]) == Size(g.sections[x]) + 1
    {
      if x != el {
        assert x in h;
      }
    }
    forall x | x in g.sections && (x !in h1 || x == TestHead)
      ensures x in r.sections && r.sections[x] == g.sections[x]
    {
      assert x != el;
    }
  }

  /** The details of one test print without raising exactly when it is ready. */
  lemma TestInfoSucceeds(t: Json.TestRecord, h: seq<string>, g: Globals, many: bool, newer: bool)
    requires Counted(h, g)
    ensures TestInfo(t, h, g, many, newer).err.None? <==> TestReady(t, h, many)
  {
    SectionsInfoSucceeds(t, h, g, newer);
  }

  /** The details of all tests print without raising exactly when every test is ready. */
  lemma {:induction false} TestsInfoSucceeds(tests: seq<Json.TestRecord>, h: seq<string>, g: Globals, many: bool, newer: bool)
    requires Counted(h, g)
    ensures TestsInfo(tests, h, g, many, newer).err.None? <==> forall i :: 0 <= i < |tests| ==> TestReady(tests[i], h, many)
    decreases |tests|
  {
    if tests != [] {
      var n := |tests| - 1;
      var p := TestsInfo(tests[..n], h, g, many, newer);
      assert TestsInfo(tests, h, g, many, newer).err ==
        if p.err.Some? then p.err else TestInfo(tests[n], h, p.globals, many, newer).err;
      assert p.err.None? <==> forall i :: 0 <= i < n ==> TestReady(tests[i], h, many) by {
        TestsInfoSucceeds(tests[..n], h, g, many, newer);
        assert forall i :: 0 <= i < n ==> tests[..n][i] == tests[i];
      }
      assert Counted(h, p.globals);
      TestInfoSucceeds(tests[n], h, p.globals, many, newer);
    }
  }

  /** `r` is `g` with `k` more sections counted in every column but "TEST", and nothing else changed. */
  predicate AddedPerColumn(g: Globals, r: Globals, h: seq<string>, k: nat) {
    Size(r.total) == Size(g.total) + k * Columns(h) &&
    (forall x :: x in h && x != TestHead ==> x in r.sections && x in g.sections && Size(r.sections[x]) == Size(g.sections[x]) + k) &&
    (forall x :: x in g.sections && (x !in h || x == TestHead) ==> x in r.sections && r.sections[x] == g.sections[x])
  }

  lemma AddedPerColumnStep(g: Globals, p: Globals, q: Globals, h: seq<string>, n: nat)
    requires AddedPerColumn(g, p, h, n) && AddedPerColumn(p, q, h, 1)
    ensures AddedPerColumn(g, q, h, n + 1)
  {
    var c := Columns(h);
    assert (n + 1) * c == n * c + c;
  }

  /** The last test of a run that printed without raising. */
  lemma TestsInfoLast(tests: seq<Json.TestRecord>, h: seq<string>, g: Globals, many: bool, newer: bool)
    requires tests != [] && TestsInfo(tests, h, g, many, newer).err.None?
    ensures var n := |tests| - 1; var p := TestsInfo(tests[..n], h, g, many, newer);
      p.err.None? && SectionsInfo(tests[n], h, p.globals, newer).err.None? &&
      TestsInfo(tests, h, g, many, newer).globals == SectionsInfo(tests[n], h, p.globals, newer).globals
  {}

  /** Printing the details of `n` tests adds `n` to every column's counters and `n` per column to the total. */
  lemma {:induction false} TestsInfoTally(tests: seq<Json.TestRecord>, h: seq<string>, g: Globals, many: bool, newer: bool)
    requires Distinct(h) && Counted(h, g)
    requires TestsInfo(tests, h, g, many, newer).err.None?
    ensures var r := TestsInfo(tests, h, g, many, newer).globals;
      Size(r.total) == Size(g.total) + |tests| * Columns(h) &&
      (forall x :: x in h && x != TestHead ==> Size(r.sections[x]) == Size(g.sections[x]) + |tests|) &&
      (forall x :: x in g.sections && (x !in h || x == TestHead) ==> r.sections[x] == g.sections[x])
    decreases |tests|
  {
    TestsInfoAdds(tests, h, g, many, newer);
  }

  lemma {:induction false} TestsInfoAdds(tests: seq<Json.TestRecord>, h: seq<string>, g: Globals, many: bool, newer: bool)
    requires Distinct(h) && Counted(h, g)
    requires TestsInfo(tests, h, g, many, newer).err.None?
    ensures AddedPerColumn(g, TestsInfo(tests, h, g, many, newer).globals, h, |tests|)
    decreases |tests|
  {
    if tests == [] {
      assert Columns(h) * 0 == 0;
    } else {
      var n := |tests| - 1;
      var p := TestsInfo(tests[..n], h, g, many, newer);
      TestsInfoLast(tests, h, g, many, newer);
      var q := SectionsInfo(tests[n], h, p.globals, newer);
      assert AddedPerColumn(g, p.globals, h, n) by {
        TestsInfoAdds(tests[..n], h, g, many, newer);
      }
      assert AddedPerColumn(p.globals, q.globals, h, 1) by {
        assert Counted(h, p.globals);
        SectionsInfoTally(tests[n], h, p.globals, newer);
      }
      AddedPerColumnStep(g, p.globals, q.globals, h, n);
    }
  }

  // ---------------------------------------------------------------------
  // Which counter each test moves

  /** The status a test shows in a column; "" when it lacks the section. */
  function StatusIn(t: Json.TestRecord, x: string): string {
    if HasSection(t, x) then SectionStatus(Get(t.sections.value, x).value) else ""
  }

  /** The statuses of a column, test by test. */
  function Statuses(tests: seq<Json.TestRecord>, x: string): (r: seq<string>)
    ensures |r| == |tests|
    ensures forall i :: 0 <= i < |tests| ==> r[i] == StatusIn(tests[i], x)
  {
    if tests == [] then [] else Statuses(tests[..|tests| - 1], x) + [StatusIn(tests[|tests| - 1], x)]
  }

  /**
   * `c` is `c0` after counting the statuses `ss`: one success per "ok", one
   * error per "error" (and, in the newer generation, per "exec_error"), a
   * warning for every other status.
   */
  predicate Tallies(c0: Counts, c: Counts, ss: seq<string>, newer: bool) {
    var m := multiset(ss);
    c.ok == c0.ok + m["ok"] &&
    c.error == c0.error + m["error"] + (if newer then m["exec_error"] else 0) &&
    c.warning == c0.warning + (|ss| - m["ok"] - m["error"] - (if newer then m["exec_error"] else 0))
  }

  lemma TalliesSnoc(c0: Counts, c: Counts, ss: seq<string>, s: string, newer: bool)
    requires Tallies(c0, c, ss, newer)
    ensures Tallies(c0, Bump(c, s, newer), ss + [s], newer)
  {
    assert multiset(ss + [s]) == multiset(ss) + multiset{s};
  }

  /** `r` is `g` with one status of `t` counted in every column but "TEST", and nothing else changed. */
  predicate BumpedPerColumn(g: Globals, r: Globals, h: seq<string>, t: Json.TestRecord, newer: bool) {
    (forall x :: x in h && x != TestHead ==>
      x in r.sections && x in g.sections && r.sections[x] == Bump(g.sections[x], StatusIn(t, x), newer)) &&
    (forall x :: x in g.sections && (x !in h || x == TestHead) ==> x in r.sections && r.sections[x] == g.sections[x])
  }

  /** Printing the sections of a test moves, in each column, the counter its status names. */
  lemma {:induction false} SectionsInfoBumps(t: Json.TestRecord, h: seq<string>, g: Globals, newer: bool)
    requires Distinct(h) && Counted(h, g)
    requires SectionsInfo(t, h, g, newer).err.None?
    ensures BumpedPerColumn(g, SectionsInfo(t, h, g, newer).globals, h, t, newer)
    decreases |h|
  {
    if h != [] {
      var h' := h[..|h| - 1];
      var el := h[|h| - 1];
      assert h == h' + [el];
      SectionsInfoLast(t, h, g, newer);
      DistinctLast(h);
      assert Counted(h', g) by {
        forall x | x in h' ensures x in h {
        }
      }
      SectionsInfoBumps(t, h', g, newer);
      var p := SectionsInfo(t, h', g, newer).globals;
      if el == TestHead {
        TestColumnBumpsNothing(g, p, h', t, newer);
      } else {
        assert el in g.sections by {
          assert el in h;
        }
        assert StatusIn(t, el) == SectionStatus(Get(t.sections.value, el).value);
        TallyBumpsColumn(g, p, h', el, t, newer);
      }
    }
  }

  lemma TestColumnBumpsNothing(g: Globals, p: Globals, h: seq<string>, t: Json.TestRecord, newer: bool)
    requires BumpedPerColumn(g, p, h, t, newer)
    ensures BumpedPerColumn(g, p, h + [TestHead], t, newer)
  {
    assert forall x :: x in h + [TestHead] <==> x in h || x == TestHead;
  }

  lemma TallyBumpsColumn(g: Globals, p: Globals, h: seq<string>, el: string, t: Json.TestRecord, newer: bool)
    requires el != TestHead && el !in h && el in g.sections && el in p.sections
    requires BumpedPerColumn(g, p, h, t, newer)
    ensures BumpedPerColumn(g, Tally(p, el, StatusIn(t, el), newer), h + [el], t, newer)
  {
    var r := Tally(p, el, StatusIn(t, el), newer);
    var h1 := h + [el];
    assert forall x :: x in h1 <==> x in h || x == el;
    forall x | x in h1 && x != TestHead
      ensures x in r.sections && x in g.sections && r.sections[x] == Bump(g.sections[x], StatusIn(t, x), newer)
    {
      if x != el {
        assert x in h;
      }
    }
    forall x | x in g.sections && (x !in h1 || x == TestHead)
      ensures x in r.sections && r.sections[x] == g.sections[x]
    {
      assert x != el;
    }
  }

  /** Printing the details of the tests counts, in each column, the tests' statuses. */
  lemma {:induction false} TestsInfoColumns(tests: seq<Json.TestRecord>, h: seq<string>, g: Globals, many: bool, newer: bool)
    requires Distinct(h) && Counted(h, g)
    requires TestsInfo(tests, h, g, many, newer).err.None?
    ensures var r := TestsInfo(tests, h, g, many, newer).globals;
      forall x :: x in h && x != TestHead ==>
        x in r.sections && Tallies(g.sections[x], r.sections[x], Statuses(tests, x), newer)
    decreases |tests|
  {
    if tests != [] {
      var n := |tests| - 1;
      var p := TestsInfo(tests[..n], h, g, many, newer);
      TestsInfoLast(tests, h, g, many, newer);
      TestsInfoColumns(tests[..n], h, g, many, newer);
      assert Counted(h, p.globals);
      SectionsInfoBumps(tests[n], h, p.globals, newer);
      var r := TestsInfo(tests, h, g, many, newer).globals;
      forall x | x in h && x != TestHead
        ensures x in r.sections && Tallies(g.sections[x], r.sections[x], Statuses(tests, x), newer)
      {
        TalliesSnoc(g.sections[x], p.globals.sections[x], Statuses(tests[..n], x), StatusIn(tests[n], x), newer);
      }
    }
  }

  /**
   * The page ends in `exit(0)` exactly when the header and the rows print
   * and the first test's execution did not succeed; then only the error
   * message follows the table, and nothing is counted.
   */
  lemma EndSessionExit(tests: seq<Json.TestRecord>, g: Globals, newer: bool)
    ensures var r := OnEndSession(tests, g, newer);
      r.stop == Some(Exited(0)) <==>
        AllExecuted(tests) && (|tests| > 1 ==> forall i :: 0 <= i < |tests| ==> tests[i].title.Some?) &&
        tests != [] && tests[0].exec.Some? && tests[0].exec.value.errorMessage != "ok"
    ensures var r := OnEndSession(tests, g, newer);
      r.stop == Some(Exited(0)) ==>
        r.globals == Reset(g, HeaderOf(tests).value) && SummaryHead !in r.printed &&
        |r.printed| >= 2 && r.printed[|r.printed| - 2..] == [Rule, Close] &&
        ErrorMessage(tests[0].exec.value.errorMessage) in r.printed
  {
    if AllExecuted(tests) {
      var h := HeaderOf(tests).value;
      assert OnEndSession(tests, g, newer) == AfterHeader(tests, h, Reset(g, h), newer);
      AfterHeaderEnds(tests, h, Reset(g, h), newer);
    }
  }

  /**
   * A session ends normally exactly when every test ran, the first one
   * successfully, and every test is ready to print.
   */
  lemma EndSessionSucceeds(tests: seq<Json.TestRecord>, g: Globals, newer: bool)
    ensures OnEndSession(tests, g, newer).stop.None? <==>
      AllExecuted(tests) && tests != [] && tests[0].exec.Some? && tests[0].exec.value.errorMessage == "ok" &&
      forall i :: 0 <= i < |tests| ==> TestReady(tests[i], HeaderOf(tests).value, |tests| > 1)
  {
    if AllExecuted(tests) {
      var h := HeaderOf(tests).value;
      var g1 := Reset(g, h);
      assert Counted(h, g1);
      RowBlocksShape(tests, h, |tests| > 1, newer);
      TestsInfoSucceeds(tests, h, g1, |tests| > 1, newer);
      assert forall i :: 0 <= i < |tests| && TestReady(tests[i], h, |tests| > 1) ==> (|tests| > 1 ==> tests[i].title.Some?);
    }
  }

  /**
   * After a session that ends normally every column has counted each test
   * once, the totals have grown by one per test and column, and the
   * counters of other sections are as they were.
   */
  lemma EndSessionCounts(tests: seq<Json.TestRecord>, g: Globals, newer: bool)
    requires OnEndSession(tests, g, newer).stop.None?
    ensures AllExecuted(tests)
    ensures var h := HeaderOf(tests).value;
      var r := OnEndSession(tests, g, newer).globals;
      (forall x :: x in h && x != TestHead ==> x in r.sections && Size(r.sections[x]) == |tests|) &&
      Size(r.total) == Size(g.total) + |tests| * Columns(h) &&
      (forall x :: x in g.sections && x !in h ==> r.sections[x] == g.sections[x])
    ensures var h := HeaderOf(tests).value;
      var r := OnEndSession(tests, g, newer).globals;
      forall x :: x in h && x != TestHead ==> x in r.sections && Tallies(Zero, r.sections[x], Statuses(tests, x), newer)
  {
    var h := HeaderOf(tests).value;
    var many := |tests| > 1;
    HeaderShape(tests);
    var g1 := Reset(g, h);
    assert Counted(h, g1);
    assert OnEndSession(tests, g, newer) == AfterHeader(tests, h, g1, newer);
    AfterHeaderEnds(tests, h, g1, newer);
    TestsInfoTally(tests, h, g1, many, newer);
    TestsInfoColumns(tests, h, g1, many, newer);
  }

  // ---------------------------------------------------------------------
  // A failed stretch of printing stays failed

  lemma {:induction false} RowBlocksStuck(tests: seq<Json.TestRecord>, k: nat, h: seq<string>, many: bool, newer: bool)
    requires k <= |tests| && RowBlocks(tests[..k], h, many, newer).err.Some?
    ensures RowBlocks(tests, h, many, newer) == RowBlocks(tests[..k], h, many, newer)
    decreases |tests|
  {
    if k < |tests| {
      assert tests[..|tests| - 1][..k] == tests[..k];
      RowBlocksStuck(tests[..|tests| - 1], k, h, many, newer);
    } else {
      assert tests[..k] == tests;
    }
  }

  /** One more column after the first `i`, while none has raised. */
  lemma SectionsInfoNext(t: Json.TestRecord, h: seq<string>, i: nat, g: Globals, newer: bool)
    requires i < |h| && SectionsInfo(t, h[..i], g, newer).err.None?
    ensures var p := SectionsInfo(t, h[..i], g, newer);
      SectionsInfo(t, h[..i + 1], g, newer) ==
        if h[i] == TestHead then p
        else var s := SectionInfo(t, h[i], p.globals, newer); Step(p.blocks + s.blocks, s.globals, s.err)
  {
    assert h[..i + 1][..i] == h[..i];
  }

  lemma {:induction false} SectionsInfoStuck(t: Json.TestRecord, h: seq<string>, k: nat, g: Globals, newer: bool)
    requires k <= |h| && SectionsInfo(t, h[..k], g, newer).err.Some?
    ensures SectionsInfo(t, h, g, newer) == SectionsInfo(t, h[..k], g, newer)
    decreases |h|
  {
    if k < |h| {
      assert h[..|h| - 1][..k] == h[..k];
      SectionsInfoStuck(t, h[..|h| - 1], k, g, newer);
    } else {
      assert h[..k] == h;
    }
  }

  lemma {:induction false} TestsInfoStuck(tests: seq<Json.TestRecord>, k: nat, h: seq<string>, g: Globals, many: bool, newer: bool)
    requires k <= |tests| && TestsInfo(tests[..k], h, g, many, newer).err.Some?
    ensures TestsInfo(tests, h, g, many, newer) == TestsInfo(tests[..k], h, g, many, newer)
    decreases |tests|
  {
    if k < |tests| {
      assert tests[..|tests| - 1][..k] == tests[..k];
      TestsInfoStuck(tests[..|tests| - 1], k, h, g, many, newer);
    } else {
      assert tests[..k] == tests;
    }
  }

  // ---------------------------------------------------------------------
  // The module-level counters and the formatter object

  /** `section_summary` and `total_summary`, shared by every formatter of a run. */
  class Summary {
    var sections: map<string, Counts>
    var total: Counts

    function State(): Globals
      reads this
    {
      Globals(sections, total)
    }

    /** The counters when the module is loaded. */
    constructor()
      ensures State() == Globals(map[], Zero)
    {
      sections := map[];
      total := Zero;
    }

    /** The first loop of `end_session`. */
    method ResetFor(header: seq<string>)
      modifies this
      ensures State() == Reset(old(State()), header)
    {
      for i := 0 to |header|
        invariant State() == Reset(old(State()), header[..i])
      {
        assert header[..i + 1][..i] == header[..i];
        if header[i] != TestHead {
          sections := sections[header[i] := Zero];
        }
      }
      assert header[..|header|] == header;
    }

    /** `section_summary[section][kind] += 1` and `total_summary[kind] += 1`. */
    method Count(section: string, status: string, newer: bool)
      requires section in sections
      modifies this
      ensures State() == Tally(old(State()), section, status, newer)
    {
      sections := sections[section := Bump(sections[section], status, newer)];
      total := Bump(total, status, newer);
    }
  }

  /**
   * `HTMLFormatter`: the JSON formatter of its generation collects the
   * tests; `end_session` prints the page instead of the JSON document.
   */
  class HtmlFormatter {
    const json: Json.JsonFormatter
    const summary: Summary
    /** The newer generation (`pvcheck/`) or the older one (`src/`). */
    const newer: bool
    /** The blocks printed so far. */
    var printed: seq<Block>

    ghost predicate Valid()
      reads json
    {
      json.Valid()
    }

    constructor(json: Json.JsonFormatter, summary: Summary, newer: bool)
      ensures this.json == json && this.summary == summary && this.newer == newer && printed == []
    {
      this.json := json;
      this.summary := summary;
      this.newer := newer;
      printed := [];
    }

    /** Every name of `names` not yet in `header` appended to it. */
    static method AddNames(header: seq<string>, ghost base: seq<string>, names: seq<string>) returns (r: seq<string>)
      requires header == Dedup(base)
      ensures r == Dedup(base + names)
    {
      r := header;
      assert base + names[..0] == base;
      for j := 0 to |names|
        invariant r == Dedup(base + names[..j])
      {
        assert (base + names[..j + 1])[..|base + names[..j + 1]| - 1] == base + names[..j];
        assert (base + names[..j + 1])[|base + names[..j + 1]| - 1] == names[j];
        if names[j] !in r {
          r := r + [names[j]];
        }
      }
      assert names[..|names|] == names;
    }

    /** `_tests_table_header_builder`. */
    static method BuildHeader(tests: seq<Json.TestRecord>) returns (r: Outcome<seq<string>>)
      ensures r == HeaderOf(tests)
    {
      var header := StartHeader(|tests|);
      ghost var lead := Lead(tests);
      assert lead + SectionNames(tests[..0]) == lead;
      for i := 0 to |tests|
        invariant AllExecuted(tests[..i])
        invariant header == Dedup(lead + SectionNames(tests[..i]))
      {
        if tests[i].sections.None? {
          return Raised(KeyError);
        }
        NamesSnoc(tests, i);
        header := AddNames(header, lead + SectionNames(tests[..i]), Keys(tests[i].sections.value));
      }
      assert tests[..|tests|] == tests;
      r := Returned(header);
    }

    /** The header before any test is read: "TEST" alone when there are several tests. */
    static method StartHeader(count: nat) returns (header: seq<string>)
      ensures header == Dedup(if count > 1 then [TestHead] else [])
    {
      header := [];
      if count > 1 {
        header := [TestHead];
        assert [TestHead][..0] == [];
      }
    }

    /** `_test_table_row_builder`; a section the test lacks gives "". */
    static method BuildRow(t: Json.TestRecord, header: seq<string>, many: bool) returns (row: seq<Option<string>>)
      ensures row == RowOf(t, header, many)
    {
      var lead: seq<Option<string>> := if many then [t.title] else [];
      row := lead;
      for i := 0 to |header|
        invariant row == lead + Somes(RowCells(t, header[..i]))
      {
        ghost var cells := RowCells(t, header[..i]);
        assert header[..i + 1][..i] == header[..i] && header[..i + 1][i] == header[i];
        if header[i] != TestHead {
          var status := if t.sections.Some? && Get(t.sections.value, header[i]).Some?
            then SectionStatus(Get(t.sections.value, header[i]).value) else "";
          assert RowCells(t, header[..i + 1]) == cells + [status];
          SomesSnoc(cells, status);
          AppendAssoc(lead, Somes(cells), [Some(status)]);
          row := row + [Some(status)];
        } else {
          assert RowCells(t, header[..i + 1]) == cells;
        }
      }
      assert header[..|header|] == header;
    }

    /** The loop of `_print_test_table_row` over the statuses of a row. */
    static method ShowCells(statuses: seq<Option<string>>, ghost cells: seq<string>, newer: bool) returns (shown: seq<Shown>)
      requires statuses == Somes(cells)
      ensures shown == ShowAll(cells, newer)
    {
      shown := [];
      for k := 0 to |statuses|
        invariant shown == ShowAll(cells[..k], newer)
      {
        var status := statuses[k].value;
        var d := StatusDisplay(status, newer);
        ShowAllSnoc(cells[..k], status, newer);
        assert cells[..k + 1] == cells[..k] + [status];
        shown := shown + [Shown(d.color, Escape(d.text))];
      }
      assert cells[..|cells|] == cells;
    }

    /** `_print_test_table_row` for a row built by `BuildRow`. */
    static method PrintRow(t: Json.TestRecord, header: seq<string>, many: bool, newer: bool) returns (r: Outcome<Block>)
      ensures r == RowBlock(t, header, many, newer)
    {
      var row := BuildRow(t, header, many);
      var first := if many then 1 else 0;
      assert row[first..] == Somes(RowCells(t, header));
      if many && row[0].None? {
        return Raised(AttributeError);
      }
      var shown := ShowCells(row[first..], RowCells(t, header), newer);
      return Returned(TestsRow(if many then Some(Escape(row[0].value)) else None, shown));
    }

    /** `_print_tests_table_rows`. */
    static method PrintRows(tests: seq<Json.TestRecord>, header: seq<string>, many: bool, newer: bool) returns (p: Printed)
      ensures p == RowBlocks(tests, header, many, newer)
    {
      var blocks: seq<Block> := [];
      for i := 0 to |tests|
        invariant RowBlocks(tests[..i], header, many, newer) == Printed(blocks, None)
      {
        assert tests[..i + 1][..i] == tests[..i];
        var r := PrintRow(tests[i], header, many, newer);
        if r.Raised? {
          RowBlocksStuck(tests, i + 1, header, many, newer);
          return Printed(blocks, Some(r.error));
        }
        blocks := blocks + [r.value];
      }
      assert tests[..|tests|] == tests;
      return Printed(blocks, None);
    }

    /** The loop of `_print_command_line`. */
    static method CommandLineText(args: seq<string>) returns (line: string)
      ensures line == CommandText(args)
    {
      line := "";
      for i := 0 to |args|
        invariant line == CommandText(args[..i])
      {
        assert args[..i + 1][..i] == args[..i];
        line := line + " " + args[i];
      }
      assert args[..|args|] == args;
    }

    /** The columns of one test, tallied and printed (the last loop of `_print_test_information`). */
    method PrintSections(t: Json.TestRecord, header: seq<string>) returns (p: Printed)
      requires Counted(header, summary.State())
      modifies summary
      ensures var r := SectionsInfo(t, header, old(summary.State()), newer);
        p == Printed(r.blocks, r.err) && summary.State() == r.globals
    {
      ghost var g := summary.State();
      var blocks: seq<Block> := [];
      for i := 0 to |header|
        invariant SectionsInfo(t, header[..i], g, newer) == Step(blocks, summary.State(), None)
        invariant summary.sections.Keys == g.sections.Keys
      {
        var x := header[i];
        SectionsInfoNext(t, header, i, g, newer);
        if x != TestHead {
          if t.sections.None? || Get(t.sections.value, x).None? {
            SectionsInfoStuck(t, header, i + 1, g, newer);
            return Printed(blocks, Some(KeyError));
          }
          assert x in summary.sections by {
            assert x in header;
          }
          var e := Get(t.sections.value, x).value;
          summary.Count(x, SectionStatus(e), newer);
          blocks := blocks + SectionLines(e, x, newer);
        }
      }
      assert header[..|header|] == header;
      return Printed(blocks, None);
    }

    /** `_print_test_information`. */
    method PrintTest(t: Json.TestRecord, header: seq<string>, many: bool) returns (p: Printed)
      requires Counted(header, summary.State())
      modifies summary
      ensures var r := TestInfo(t, header, old(summary.State()), many, newer);
        p == Printed(r.blocks, r.err) && summary.State() == r.globals
    {
      var blocks := [Rule];
      if many && t.title.None? {
        return Printed(blocks, Some(AttributeError));
      }
      if many {
        blocks := blocks + [TestName(Escape(t.title.value))];
      }
      var line := CommandLineText(t.commandLine);
      blocks := blocks + [CommandLine(Escape(line))];
      if |t.inputText| > 0 {
        blocks := blocks + [InputText(Escape(t.inputText))];
      }
      if t.inputFileName.Some? {
        if t.fileText.None? {
          return Printed(blocks, Some(AttributeError));
        }
        blocks := blocks + [InputFile(Escape(FileLabel(t.inputFileName.value, newer)), Escape(t.fileText.value))];
      }
      assert TestPreface(t, many, newer) == Printed(blocks, None);
      var rest := PrintSections(t, header);
      return Printed(blocks + rest.blocks, rest.err);
    }

    /** The loop of `print_tests_information`. */
    method PrintTests(tests: seq<Json.TestRecord>, header: seq<string>, many: bool) returns (p: Printed)
      requires Counted(header, summary.State())
      modifies summary
      ensures var r := TestsInfo(tests, header, old(summary.State()), many, newer);
        p == Printed(r.blocks, r.err) && summary.State() == r.globals
    {
      ghost var g := summary.State();
      var blocks: seq<Block> := [];
      for i := 0 to |tests|
        invariant TestsInfo(tests[..i], header, g, many, newer) == Step(blocks, summary.State(), None)
        invariant summary.sections.Keys == g.sections.Keys
      {
        assert tests[..i + 1][..i] == tests[..i];
        var q := PrintTest(tests[i], header, many);
        blocks := blocks + q.blocks;
        if q.err.Some? {
          TestsInfoStuck(tests, i + 1, header, g, many, newer);
          return Printed(blocks, q.err);
        }
      }
      assert tests[..|tests|] == tests;
      return Printed(blocks, None);
    }

    /** `print_summary_table`. */
    static method PrintSummary(header: seq<string>, g: Globals) returns (blocks: seq<Block>)
      requires Counted(header, g)
      ensures blocks == SummaryBlocks(header, g)
    {
      var rows: seq<Block> := [];
      for i := 0 to |header|
        invariant rows == SummaryRows(header[..i], g)
      {
        assert header[..i + 1][..i] == header[..i];
        if header[i] != TestHead {
          rows := rows + [SummaryRow(header[i], g.sections[header[i]])];
        }
      }
      assert header[..|header|] == header;
      blocks := [SummaryHead] + rows + [SummaryRow("TOTAL", g.total)];
    }

    /** `print_tests_information` and `print_summary_table`, once `top` is printed. */
    method PrintInformation(tests: seq<Json.TestRecord>, header: seq<string>, top: seq<Block>)
      returns (out: seq<Block>, stop: Option<Stop>)
      requires Counted(header, summary.State())
      modifies summary
      ensures var r := Information(tests, header, old(summary.State()), top, newer);
        out == r.printed && summary.State() == r.globals && stop == r.stop
    {
      if |tests| == 0 {
        return top, Some(Failed(IndexError));
      }
      if tests[0].exec.None? {
        return top, Some(Failed(KeyError));
      }
      if tests[0].exec.value.errorMessage != "ok" {
        return top + [Rule, ErrorMessage(tests[0].exec.value.errorMessage), Rule, Close], Some(Exited(0));
      }
      var info := PrintTests(tests, header, |tests| > 1);
      if info.err.Some? {
        return top + info.blocks, Some(Failed(info.err.value));
      }
      var sum := PrintSummary(header, summary.State());
      return top + info.blocks + [Rule] + sum + [Close], None;
    }

    /** What `end_session` prints once the header is built and its counters zeroed. */
    method PrintAfterHeader(tests: seq<Json.TestRecord>, header: seq<string>) returns (out: seq<Block>, stop: Option<Stop>)
      requires Counted(header, summary.State())
      modifies summary
      ensures var r := AfterHeader(tests, header, old(summary.State()), newer);
        out == r.printed && summary.State() == r.globals && stop == r.stop
    {
      ghost var g := summary.State();
      var rows := PrintRows(tests, header, |tests| > 1, newer);
      var top := [Preamble, TestsHeader(EscapeAll(header))] + rows.blocks;
      if rows.err.Some? {
        assert AfterHeader(tests, header, g, newer) == EndResult(top, g, Some(Failed(rows.err.value)));
        return top, Some(Failed(rows.err.value));
      }
      var info := if newer then [InfoHead] else [];
      assert AfterHeader(tests, header, g, newer) == Information(tests, header, g, top + info, newer);
      out, stop := PrintInformation(tests, header, top + info);
    }

    /** `end_session`: the page, or the exception or exit that cut it short. */
    method EndSession() returns (stop: Option<Stop>)
      modifies this, summary
      ensures var r := OnEndSession(json.tests, old(summary.State()), newer);
        printed == old(printed) + r.printed && summary.State() == r.globals && stop == r.stop
    {
      var tests := json.tests;
      var h := BuildHeader(tests);
      if h.Raised? {
        return Some(Failed(h.error));
      }
      summary.ResetFor(h.value);
      var out;
      out, stop := PrintAfterHeader(tests, h.value);
      printed := printed + out;
    }

    /**
     * The call an event stands for: `end_session` prints the page, every
     * other call is the JSON formatter's of the same generation.
     */
    method Dispatch(e: Event, now: string) returns (stop: Option<Stop>)
      requires Valid()
      modifies this, json, summary
      ensures Valid()
      ensures e.EndSession? ==>
        var r := OnEndSession(old(json.tests), old(summary.State()), newer);
        printed == old(printed) + r.printed && summary.State() == r.globals && stop == r.stop &&
        json.State() == old(json.State())
      ensures !e.EndSession? && newer ==>
        var n := Json.Next(old(json.State()), e, now);
        json.State() == n.0 && stop == (if n.1.Some? then Some(Failed(n.1.value)) else None) &&
        printed == old(printed) && summary.State() == old(summary.State())
      ensures !e.EndSession? && !newer ==>
        var n := Json.LegacyNext(old(json.State()), e, now);
        json.State() == n.0 && stop == (if n.1.Some? then Some(Failed(n.1.value)) else None) &&
        printed == old(printed) && summary.State() == old(summary.State())
    {
      if e.EndSession? {
        stop := EndSession();
      } else {
        var err := json.Dispatch(e, now, !newer);
        stop := if err.Some? then Some(Failed(err.value)) else None;
      }
    }
  }
}
