/**
 * The interactive terminal formatter. A `Report` is one scrollable document
 * of lines (both generations define it); the current generation keeps one
 * report per test case after a waiting page (report 0), the index of the
 * report on screen, and ok / warning / error counters in total and per
 * section. Curses drawing, the UI thread, its lock and its barrier are not
 * modelled: the key handlers that change state are methods, and the thread
 * setup of `begin_session` is folded into the call.
 */
module Interactive {
  import opened Common
  import opened Text
  import opened TestData
  import opened Executor
  import opened Events
  import Match
  import Formatter

  /** `MAX_W`: the width of the pads; longer lines are cut. */
  const MaxWidth: nat := 512
  const WaitingTitle := "PVCHECK"
  const WaitingLine := "Waiting for test results..."

  /** The colour pair a line is written with: none, ok, warn or err. */
  datatype Tone = Plain | Good | Warn | Bad
  datatype Line = Line(text: string, tone: Tone, bold: bool)

  /** `addnstr(y, x, line, w)`: at most `w` characters of the line reach the pad. */
  function Cut(s: string, w: nat): (r: string)
    ensures r <= s && |r| == Min(|s|, w)
  {
    if |s| <= w then s else s[..w]
  }

  // ---------------------------------------------------------------------
  // Scrolling

  /** The first visible line after `scroll`: the requested move, clamped to the document. */
  function Scrolled(position: int, length: int, h: int, lines: int, pages: int, documents: int): (p: int)
    ensures 0 <= p <= Max(0, length - h)
    ensures var want := position + lines + h * pages + documents * length;
      0 <= want <= length - h ==> p == want
  {
    Max(0, Min(position + lines + h * pages + documents * length, length - h))
  }

  /** HOME (`documents=-1`) goes back to the first line from anywhere in the document. */
  lemma ScrollHome(position: int, length: int, h: int)
    requires 0 <= position <= length
    ensures Scrolled(position, length, h, 0, 0, -1) == 0
  {
  }

  /** END (`documents=1`) shows the last page, or the top when the document fits. */
  lemma ScrollEnd(position: int, length: int, h: int)
    requires 0 <= position && 0 <= h
    ensures Scrolled(position, length, h, 0, 0, 1) == Max(0, length - h)
  {
  }

  /** One line down and one line up return where they started when not at the end. */
  lemma ScrollBack(position: int, length: int, h: int)
    requires 0 <= position < length - h
    ensures Scrolled(Scrolled(position, length, h, 1, 0, 0), length, h, -1, 0, 0) == position
  {
  }

  // ---------------------------------------------------------------------
  // Report

  /** A report as a value: its title, the lines of its pad, the scroll position and the program's output. */
  datatype Page = Page(title: string, pad: seq<Line>, length: int, position: int, output: string)

  /** A document displayed on the screen, its lines cut to `maxWidth`. */
  class Report {
    const title: string
    const maxWidth: nat
    var length: int
    var position: int
    var pad: seq<Line>
    var output: string

    ghost predicate Valid()
      reads this
    {
      length == |pad| && 0 <= position
    }

    function View(): Page
      reads this
    {
      Page(title, pad, length, position, output)
    }

    /** `Report(title, max_width)`: an empty document at its top. */
    constructor(title: string, maxWidth: nat)
      ensures this.title == title && this.maxWidth == maxWidth
      ensures length == 0 && position == 0 && pad == [] && output == ""
      ensures Valid()
    {
      this.title := title;
      this.maxWidth := maxWidth;
      length := 0;
      position := 0;
      pad := [];
      output := "";
    }

    /** `add_line`: one more line at the bottom; the view does not move. */
    method AddLine(text: string, tone: Tone, bold: bool)
      modifies this
      ensures length == old(length) + 1
      ensures pad == old(pad) + [Line(Cut(text, maxWidth), tone, bold)]
      ensures position == old(position) && output == old(output)
      ensures old(Valid()) ==> Valid()
    {
      pad := pad + [Line(Cut(text, maxWidth), tone, bold)];
      length := length + 1;
    }

    /** `scroll(page_height, lines, pages, documents)`. */
    method Scroll(h: int, lines: int, pages: int, documents: int)
      modifies this
      ensures position == Scrolled(old(position), length, h, lines, pages, documents)
      ensures 0 <= position <= Max(0, length - h)
      ensures length == old(length) && pad == old(pad) && output == old(output)
      ensures old(Valid()) ==> Valid()
    {
      var amount := lines + h * pages + documents * length;
      position := Max(0, Min(position + amount, length - h));
    }

    /** `top()`: the number, from 1, of the first line on the screen. */
    function Top(): int
      reads this
    {
      position + 1
    }

    /** `bottom(page_height)`: the number of the last line on the screen. */
    function Bottom(h: int): int
      reads this
    {
      Min(position + h, length)
    }

    /** `length()`: the number of lines in the document. */
    function Length(): int
      reads this
    {
      length
    }
  }

  /**
   * Where `scroll` leaves it, a report shows a full page when the document
   * is at least a page long, and the whole document otherwise.
   */
  lemma Shown(r: Report, h: int)
    requires r.Valid() && 0 <= h && r.position <= Max(0, r.length - h)
    ensures 1 <= r.Top() && r.Bottom(h) <= r.Length()
    ensures h <= r.Length() ==> r.Bottom(h) - r.Top() + 1 == h
    ensures r.Length() < h ==> r.Top() == 1 && r.Bottom(h) == r.Length()
  {
  }

  // ---------------------------------------------------------------------
  // Counters

  /** The ok / warning / error counters: per section, in registration order, and in total. */
  datatype Counters = Counters(sections: seq<string>,
                               okCounts: map<string, nat>, warnCounts: map<string, nat>, errCounts: map<string, nat>,
                               ok: nat, warn: nat, err: nat)

  /** Sections are registered once, each with its three counters. */
  ghost predicate Registered(c: Counters) {
    (forall i, j :: 0 <= i < j < |c.sections| ==> c.sections[i] != c.sections[j])
    && (forall t :: (t in c.okCounts <==> t in c.sections) && (t in c.warnCounts <==> t in c.sections)
                 && (t in c.errCounts <==> t in c.sections))
  }

  /** Registration does not depend on the totals. */
  lemma TotalsFree(c: Counters, ok: nat, warn: nat, err: nat)
    requires Registered(c)
    ensures Registered(c.(ok := ok, warn := warn, err := err))
  {
  }

  function Before(m: map<string, nat>, t: string): nat {
    if t in m then m[t] else 0
  }

  /** `_new_section`: a section seen for the first time is appended with zeroed counters. */
  function Register(c: Counters, tag: string): Counters {
    if tag in c.sections then c
    else c.(sections := c.sections + [tag], errCounts := c.errCounts[tag := 0],
            warnCounts := c.warnCounts[tag := 0], okCounts := c.okCounts[tag := 0])
  }

  lemma RegisterAdds(c: Counters, tag: string)
    requires Registered(c)
    ensures var r := Register(c, tag);
      Registered(r) && tag in r.sections
      && (tag in c.sections ==> r == c)
      && (tag !in c.sections ==>
            r.sections == c.sections + [tag]
            && r.okCounts[tag] == 0 && r.warnCounts[tag] == 0 && r.errCounts[tag] == 0)
      && (forall t :: t in c.sections ==>
            t in r.sections
            && r.okCounts[t] == c.okCounts[t] && r.warnCounts[t] == c.warnCounts[t] && r.errCounts[t] == c.errCounts[t])
      && r.ok == c.ok && r.warn == c.warn && r.err == c.err
  {
    var r := Register(c, tag);
    if tag !in c.sections {
      forall i, j | 0 <= i < j < |r.sections|
        ensures r.sections[i] != r.sections[j]
      {
        if j == |c.sections| {
          assert r.sections[i] == c.sections[i];
        }
      }
      forall t
        ensures t in r.okCounts <==> t in r.sections
      {
        assert t in r.sections <==> t in c.sections || t == tag;
      }
    }
  }

  /** A comparison's verdict, counted in total and for its section. */
  function CountComparison(c: Counters, tag: string, passed: bool): (r: Counters)
    requires Registered(c) && tag in c.sections
    ensures Registered(r) && r.sections == c.sections
  {
    if passed then c.(ok := c.ok + 1, okCounts := c.okCounts[tag := c.okCounts[tag] + 1])
    else c.(err := c.err + 1, errCounts := c.errCounts[tag := c.errCounts[tag] + 1])
  }

  /** A missing section, counted as a warning in total and for the section. */
  function CountMissing(c: Counters, tag: string): (r: Counters)
    requires Registered(c) && tag in c.sections
    ensures Registered(r) && r.sections == c.sections
  {
    c.(warn := c.warn + 1, warnCounts := c.warnCounts[tag := c.warnCounts[tag] + 1])
  }

  /** The sum of one counter over the registered sections. */
  function SumOver(sections: seq<string>, m: map<string, nat>): nat
    decreases |sections|
  {
    if sections == [] then 0
    else SumOver(sections[..|sections| - 1], m) + Before(m, sections[|sections| - 1])
  }

  lemma {:induction false} SumOverOther(sections: seq<string>, m: map<string, nat>, t: string, v: nat)
    requires t !in sections
    ensures SumOver(sections, m[t := v]) == SumOver(sections, m)
    decreases |sections|
  {
    if sections != [] {
      SumOverOther(sections[..|sections| - 1], m, t, v);
    }
  }

  lemma {:induction false} SumOverBump(sections: seq<string>, m: map<string, nat>, t: string)
    requires forall i, j :: 0 <= i < j < |sections| ==> sections[i] != sections[j]
    requires t in sections
    ensures SumOver(sections, m[t := Before(m, t) + 1]) == SumOver(sections, m) + 1
    decreases |sections|
  {
    var init := sections[..|sections| - 1];
    if sections[|sections| - 1] == t {
      forall i | 0 <= i < |init|
        ensures init[i] != t
      {
        assert init[i] == sections[i];
      }
      SumOverOther(init, m, t, Before(m, t) + 1);
    } else {
      assert t in init by {
        var i :| 0 <= i < |sections| && sections[i] == t;
        assert i != |sections| - 1;
        assert init[i] == t;
      }
      SumOverBump(init, m, t);
    }
  }

  lemma SumOverAppend(sections: seq<string>, m: map<string, nat>, t: string)
    requires t !in sections
    ensures SumOver(sections + [t], m[t := 0]) == SumOver(sections, m)
  {
    assert (sections + [t])[..|sections|] == sections;
    SumOverOther(sections, m, t, 0);
  }

  /**
   * The pass and warning totals are the sums of the per-section counters,
   * and the error total adds failed runs to the section errors.
   */
  ghost predicate Tallied(c: Counters) {
    c.ok == SumOver(c.sections, c.okCounts) && c.warn == SumOver(c.sections, c.warnCounts)
    && c.err >= SumOver(c.sections, c.errCounts)
  }

  /** Registering a section adds zero to every sum. */
  lemma RegisterTallied(c: Counters, tag: string)
    requires Registered(c) && Tallied(c)
    ensures var r := Register(c, tag);
      Registered(r) && tag in r.sections && Tallied(r)
  {
    RegisterAdds(c, tag);
    if tag !in c.sections {
      SumOverAppend(c.sections, c.okCounts, tag);
      SumOverAppend(c.sections, c.warnCounts, tag);
      SumOverAppend(c.sections, c.errCounts, tag);
    }
  }

  /**
   * A verdict on a section: the section is registered, and exactly one of the
   * pass and error counters moves, in total and for the section.
   */
  lemma VerdictCounted(c: Counters, tag: string, passed: bool)
    requires Registered(c)
    ensures var d := CountComparison(Register(c, tag), tag, passed);
      Registered(d) && tag in d.sections
      && d.ok == c.ok + (if passed then 1 else 0) && d.err == c.err + (if passed then 0 else 1)
      && d.warn == c.warn
      && d.okCounts[tag] == Before(c.okCounts, tag) + (if passed then 1 else 0)
      && d.errCounts[tag] == Before(c.errCounts, tag) + (if passed then 0 else 1)
      && d.warnCounts[tag] == Before(c.warnCounts, tag)
      && (forall t :: t in c.sections && t != tag ==>
            d.okCounts[t] == c.okCounts[t] && d.warnCounts[t] == c.warnCounts[t] && d.errCounts[t] == c.errCounts[t])
  {
    RegisterAdds(c, tag);
  }

  /** A missing section: registered, and one more warning in total and for the section. */
  lemma MissingCounted(c: Counters, tag: string)
    requires Registered(c)
    ensures var d := CountMissing(Register(c, tag), tag);
      Registered(d) && tag in d.sections
      && d.warn == c.warn + 1 && d.ok == c.ok && d.err == c.err
      && d.warnCounts[tag] == Before(c.warnCounts, tag) + 1
      && d.okCounts[tag] == Before(c.okCounts, tag) && d.errCounts[tag] == Before(c.errCounts, tag)
      && (forall t :: t in c.sections && t != tag ==>
            d.okCounts[t] == c.okCounts[t] && d.warnCounts[t] == c.warnCounts[t] && d.errCounts[t] == c.errCounts[t])
  {
    RegisterAdds(c, tag);
  }

  /** Counting a verdict keeps the totals tallied. */
  lemma ComparisonTallied(c: Counters, tag: string, passed: bool)
    requires Registered(c) && tag in c.sections && Tallied(c)
    ensures Tallied(CountComparison(c, tag, passed))
  {
    if passed {
      assert CountComparison(c, tag, passed).okCounts == c.okCounts[tag := Before(c.okCounts, tag) + 1];
      SumOverBump(c.sections, c.okCounts, tag);
    } else {
      assert CountComparison(c, tag, passed).errCounts == c.errCounts[tag := Before(c.errCounts, tag) + 1];
      SumOverBump(c.sections, c.errCounts, tag);
    }
  }

  /** Counting a missing section keeps the totals tallied; so does a failed run, which adds to the errors only. */
  lemma MissingTallied(c: Counters, tag: string)
    requires Registered(c) && tag in c.sections && Tallied(c)
    ensures Tallied(CountMissing(c, tag)) && Tallied(c.(err := c.err + 1))
  {
    assert CountMissing(c, tag).warnCounts == c.warnCounts[tag := Before(c.warnCounts, tag) + 1];
    SumOverBump(c.sections, c.warnCounts, tag);
  }

  // ---------------------------------------------------------------------
  // The formatter's state as a value

  datatype Screen = Screen(pages: seq<Page>, index: int, counters: Counters, running: bool)

  /** The state `__init__` leaves: no report, no section, zero counters. */
  function Initial(): Screen {
    Screen([], 0, Counters([], map[], map[], map[], 0, 0, 0), false)
  }

  /** Some report exists and the index designates one. */
  predicate Ready(s: Screen) {
    s.pages != [] && 0 <= s.index < |s.pages|
  }

  /** Ready, and off the waiting page as soon as a test report exists. */
  predicate Showing(s: Screen) {
    Ready(s) && (|s.pages| > 1 ==> s.index >= 1)
  }

  /** A line as `add_line` stores it. */
  function AddTo(p: Page, l: Line): Page {
    p.(pad := p.pad + [l.(text := Cut(l.text, MaxWidth))], length := p.length + 1)
  }

  /** Several lines added in order: the pad grows by them, cut, and nothing else changes. */
  function AddAll(p: Page, ls: seq<Line>): (r: Page)
    ensures r.title == p.title && r.position == p.position && r.output == p.output
    ensures r.length == p.length + |ls|
    ensures |r.pad| == |p.pad| + |ls| && r.pad[..|p.pad|] == p.pad
    ensures forall k :: 0 <= k < |ls| ==> r.pad[|p.pad| + k] == ls[k].(text := Cut(ls[k].text, MaxWidth))
    decreases |ls|
  {
    if ls == [] then p else AddTo(AddAll(p, ls[..|ls| - 1]), ls[|ls| - 1])
  }

  /** One line added through `AddAll` is one `AddTo`. */
  lemma AddOne(p: Page, a: Line)
    ensures AddAll(p, [a]) == AddTo(p, a)
  {
    assert [a][..0] == [];
  }

  /** Two lines added through `AddAll` are two `AddTo`s, in order. */
  lemma AddTwo(p: Page, a: Line, b: Line)
    ensures AddAll(p, [a, b]) == AddTo(AddTo(p, a), b)
  {
    assert [a, b][..1] == [a];
    AddOne(p, a);
  }

  /** A page after `ls` are added and, when one is given, its output replaced. */
  function Written(p: Page, ls: seq<Line>, output: Option<string>): Page {
    var q := AddAll(p, ls);
    if output.Some? then q.(output := output.value) else q
  }

  function Errors(texts: seq<string>): (ls: seq<Line>)
    ensures |ls| == |texts| && forall k :: 0 <= k < |ls| ==> ls[k] == Line(texts[k], Bad, false)
  {
    if texts == [] then [] else Errors(texts[..|texts| - 1]) + [Line(texts[|texts| - 1], Bad, false)]
  }

  /** Python's `reports[i]`: a negative index counts from the end. */
  function PyIndex(i: int, n: nat): (r: Option<nat>)
    ensures r.Some? <==> -(n as int) <= i < n
    ensures r.Some? ==> r.value < n
  {
    if 0 <= i < n then Some(i) else if -(n as int) <= i < 0 then Some(n + i) else None
  }

  // ---------------------------------------------------------------------
  // Transitions

  const WaitingPage := Page(WaitingTitle, [Line(Cut(WaitingLine, MaxWidth), Plain, false)], 1, 0, "")

  /** `begin_session`: totals cleared, the UI thread's waiting page appended and shown. */
  function OnBeginSession(s: Screen): Screen {
    Screen(s.pages + [WaitingPage], 0, s.counters.(ok := 0, warn := 0, err := 0), true)
  }

  /** `begin_test`: a new empty report, and the first test report shown instead of the waiting page. */
  function OnBeginTest(s: Screen, description: Option<string>): Screen {
    var title := if description.Some? then description.value else "";
    s.(pages := s.pages + [Page(title, [], 0, 0, "")], index := if s.index == 0 then 1 else s.index)
  }

  /** The messages of `_RESULT_TABLE` with their fields substituted; none for a regular exit. */
  function ResultText(r: ExecCode, progname: string, status: int): (m: Option<string>)
    ensures m.None? <==> r == ErOk
  {
    match r
    case ErOk => None
    case ErTimeout => Some("TIMEOUT EXPIRED: PROCESS TERMINATED")
    case ErOutputLimit => Some("TOO MANY OUTPUT LINES")
    case ErSegfault => Some("PROCESS ENDED WITH A FAILURE (SEGMENTATION FAULT)")
    case ErError => Some("PROCESS ENDED WITH A FAILURE (ERROR CODE " + IntToString(status) + ")")
    case ErNotFile => Some("FAILED TO RUN THE FILE '" + progname + "' the file does not exist)")
  }

  /**
   * `execution_result`: reading the program name fails on an empty command
   * line; a failure counts one error and writes its message in red; the
   * output is kept for the "o" page. Both writes need a report.
   */
  function OnExecutionResult(s: Screen, args: seq<Arg>, res: ExecResult): (Screen, Option<PyError>) {
    if args == [] then (s, Some(IndexError))
    else AfterRun(s, ResultText(res.result, Formatter.ProgName(args[0]), res.status), res.output)
  }

  /** What `execution_result` does once the program name is known: `msg` is the failure's message, if any. */
  function AfterRun(s: Screen, msg: Option<string>, output: string): (Screen, Option<PyError>) {
    var c := if msg.Some? then s.counters.(err := s.counters.err + 1) else s.counters;
    if s.pages == [] then (s.(counters := c), Some(IndexError))
    else
      var n := |s.pages| - 1;
      (s.(pages := s.pages[n := Written(s.pages[n], MessageLines(msg), Some(output))], counters := c), None)
  }

  /** The red lines of a failure's message, one per line of text; none for a regular exit. */
  function MessageLines(msg: Option<string>): (ls: seq<Line>)
    ensures msg.None? ==> ls == []
    ensures msg.Some? ==> |ls| == |SplitLines(msg.value)|
    ensures forall k :: 0 <= k < |ls| ==> ls[k].tone == Bad && !ls[k].bold
  {
    if msg.Some? then Errors(SplitLines(msg.value)) else []
  }

  /** `comparison_result` passes when no difference is positive. */
  function Passes(diffs: seq<real>): (ok: bool)
    ensures ok <==> forall i :: 0 <= i < |diffs| ==> diffs[i] <= 0.0
  {
    Match.MaxDiff(diffs) <= 0.0
  }

  /**
   * `comparison_result` as written: reading the last report fails when there
   * is none; the counters move and the bold "[tag]" heading is written; then
   * the first difference calls `pvcheck.formatter.handle_non_printable_chars`,
   * which that module does not define, so any non-empty `diffs` raises
   * AttributeError there.
   */
  function OnComparison(s: Screen, expected: Section, diffs: seq<real>): (Screen, Option<PyError>)
    requires Registered(s.counters)
  {
    if s.pages == [] then (s, Some(IndexError))
    else
      var tag := expected.tag;
      var passed := Passes(diffs);
      RegisterAdds(s.counters, tag);
      var c := CountComparison(Register(s.counters, tag), tag, passed);
      var n := |s.pages| - 1;
      var heading := Line("[" + tag + "]", if passed then Good else Bad, true);
      var ls := if diffs != [] then [heading] else [heading, Line("", Plain, false)];
      (s.(pages := s.pages[n := Written(s.pages[n], ls, None)], counters := c),
       if diffs != [] then Some(AttributeError) else None)
  }

  function MissingText(tag: string): string {
    "\t\t(section [" + tag + "] is missing)"
  }

  /** `missing_section`: one more warning, and a yellow note followed by a blank line. */
  function OnMissing(s: Screen, expected: Section): (Screen, Option<PyError>)
    requires Registered(s.counters)
  {
    var tag := expected.tag;
    RegisterAdds(s.counters, tag);
    var c := CountMissing(Register(s.counters, tag), tag);
    if s.pages == [] then (s.(counters := c), Some(IndexError))
    else
      var n := |s.pages| - 1;
      (s.(pages := s.pages[n := Written(s.pages[n], [Line(MissingText(tag), Warn, false), Line("", Plain, false)], None)],
          counters := c), None)
  }

  /** One call on the formatter; the older `execution_result(args, result)` lacks an argument. */
  function Next(s: Screen, e: Event): (Screen, Option<PyError>)
    requires Registered(s.counters)
  {
    match e
    case BeginSession => (OnBeginSession(s), None)
    case EndSession => (s.(running := false), None)
    case BeginTest(description, _, _, _) => (OnBeginTest(s, description), None)
    case EndTest => (s, None)
    case ExecutionResult(args, result, _) => OnExecutionResult(s, args, result)
    case PlainExecutionResult(_, _) => (s, Some(TypeError))
    case ComparisonResult(expected, _, diffs, _) => OnComparison(s, expected, diffs)
    case MissingSection(expected) => OnMissing(s, expected)
  }

  /** RIGHT: the next report, stopping at the last one. */
  function OnNextReport(s: Screen): Screen {
    s.(index := Min(s.index + 1, |s.pages| - 1))
  }

  /** LEFT: the previous report, stopping at the first test report. */
  function OnPreviousReport(s: Screen): Screen {
    if |s.pages| > 1 then s.(index := Max(s.index - 1, 1)) else s
  }

  /** The scrolling keys move the report on screen. */
  function OnScroll(s: Screen, h: int, lines: int, pages: int, documents: int): (Screen, Option<PyError>) {
    match PyIndex(s.index, |s.pages|)
    case None => (s, Some(IndexError))
    case Some(k) =>
      var p := s.pages[k];
      (s.(pages := s.pages[k := p.(position := Scrolled(p.position, p.length, h, lines, pages, documents))]), None)
  }

  // ---------------------------------------------------------------------
  // What the transitions keep

  /** Registration survives every call. */
  lemma NextKeepsRegistered(s: Screen, e: Event)
    requires Registered(s.counters)
    ensures Registered(Next(s, e).0.counters)
  {
  }

  /**
   * `comparison_result`: without a report nothing happens; otherwise the
   * section is registered and exactly one of the pass and error counters
   * moves, in total and for the section, the pass counter exactly when no
   * difference is positive, and the heading shows the same verdict.
   */
  lemma ComparisonCounts(s: Screen, expected: Section, diffs: seq<real>)
    requires Registered(s.counters)
    ensures var (r, error) := OnComparison(s, expected, diffs);
      var tag := expected.tag;
      var passed := forall i :: 0 <= i < |diffs| ==> diffs[i] <= 0.0;
      var c := s.counters;
      var d := r.counters;
      (s.pages == [] ==> r == s && error == Some(IndexError))
      && (s.pages != [] ==>
            Registered(d) && tag in d.sections
            && (error.None? <==> diffs == []) && (error.Some? ==> error.value == AttributeError)
            && d.ok == c.ok + (if passed then 1 else 0) && d.err == c.err + (if passed then 0 else 1)
            && d.warn == c.warn
            && d.okCounts[tag] == Before(c.okCounts, tag) + (if passed then 1 else 0)
            && d.errCounts[tag] == Before(c.errCounts, tag) + (if passed then 0 else 1)
            && d.warnCounts[tag] == Before(c.warnCounts, tag)
            && (forall t :: t in c.sections && t != tag ==>
                  d.okCounts[t] == c.okCounts[t] && d.warnCounts[t] == c.warnCounts[t] && d.errCounts[t] == c.errCounts[t])
            && r.index == s.index && |r.pages| == |s.pages|)
  {
    if s.pages != [] {
      var (r, error) := OnComparison(s, expected, diffs);
      assert r.counters == CountComparison(Register(s.counters, expected.tag), expected.tag, Passes(diffs));
      assert error == if diffs == [] then None else Some(AttributeError);
      VerdictCounted(s.counters, expected.tag, Passes(diffs));
    }
  }

  /**
   * The report lines `comparison_result` writes as written: the heading in
   * the verdict's colour, then a blank line only when there is no difference.
   */
  lemma ComparisonHeading(s: Screen, expected: Section, diffs: seq<real>)
    requires Registered(s.counters) && s.pages != []
    ensures var r := OnComparison(s, expected, diffs).0;
      var n := |s.pages| - 1;
      var heading := Line(Cut("[" + expected.tag + "]", MaxWidth), if Passes(diffs) then Good else Bad, true);
      |r.pages| == |s.pages| && r.pages[..n] == s.pages[..n]
      && r.pages[n].pad == s.pages[n].pad + [heading] + (if diffs == [] then [Line("", Plain, false)] else [])
  {
    var n := |s.pages| - 1;
    var heading := Line("[" + expected.tag + "]", if Passes(diffs) then Good else Bad, true);
    AddOne(s.pages[n], heading);
    AddTwo(s.pages[n], heading, Line("", Plain, false));
  }

  /** `missing_section`: one more warning, in total and for the section, and a yellow note. */
  lemma MissingCounts(s: Screen, expected: Section)
    requires Registered(s.counters)
    ensures var (r, error) := OnMissing(s, expected);
      var tag := expected.tag;
      var c := s.counters;
      var d := r.counters;
      Registered(d) && tag in d.sections
      && (error.Some? <==> s.pages == []) && (error.Some? ==> error.value == IndexError)
      && d.warn == c.warn + 1 && d.ok == c.ok && d.err == c.err
      && d.warnCounts[tag] == Before(c.warnCounts, tag) + 1
      && d.okCounts[tag] == Before(c.okCounts, tag) && d.errCounts[tag] == Before(c.errCounts, tag)
      && (forall t :: t in c.sections && t != tag ==>
            d.okCounts[t] == c.okCounts[t] && d.warnCounts[t] == c.warnCounts[t] && d.errCounts[t] == c.errCounts[t])
      && (error.None? ==>
            var before := s.pages[|s.pages| - 1].pad;
            r.pages[|r.pages| - 1].pad
            == before + [Line(Cut(MissingText(tag), MaxWidth), Warn, false), Line("", Plain, false)])
  {
    assert OnMissing(s, expected).0.counters == CountMissing(Register(s.counters, expected.tag), expected.tag);
    MissingCounted(s.counters, expected.tag);
    if s.pages != [] {
      AddTwo(s.pages[|s.pages| - 1], Line(MissingText(expected.tag), Warn, false), Line("", Plain, false));
    }
  }

  /**
   * `execution_result`: a failed run counts one error and nothing else;
   * its message lines go to the last report in red, and the output is kept.
   */
  lemma ExecutionCounts(s: Screen, args: seq<Arg>, res: ExecResult)
    ensures var (r, error) := OnExecutionResult(s, args, res);
      var c := s.counters;
      (error.Some? <==> args == [] || s.pages == []) && (error.Some? ==> error.value == IndexError)
      && r.counters == c.(err := c.err + (if args != [] && res.result != ErOk then 1 else 0))
      && r.index == s.index && |r.pages| == |s.pages|
  {
    if args != [] {
      var msg := ResultText(res.result, Formatter.ProgName(args[0]), res.status);
      RunCounts(s, msg, res.output);
    }
  }

  /** A message counts one error; the screen keeps its reports and its position. */
  lemma RunCounts(s: Screen, msg: Option<string>, output: string)
    ensures var (r, error) := AfterRun(s, msg, output);
      var c := s.counters;
      (error.Some? <==> s.pages == []) && (error.Some? ==> error.value == IndexError)
      && r.counters == c.(err := c.err + (if msg.Some? then 1 else 0))
      && r.index == s.index && |r.pages| == |s.pages|
  {
  }

  /** The report lines `execution_result` writes: one red line per line of the failure's message. */
  lemma ExecutionLines(s: Screen, args: seq<Arg>, res: ExecResult)
    requires args != [] && s.pages != []
    ensures var r := OnExecutionResult(s, args, res).0;
      var n := |s.pages| - 1;
      var msg := ResultText(res.result, Formatter.ProgName(args[0]), res.status);
      r.pages[..n] == s.pages[..n] && r.pages[n].output == res.output
      && |r.pages[n].pad| == |s.pages[n].pad| + (if msg.None? then 0 else |SplitLines(msg.value)|)
      && r.pages[n].pad[..|s.pages[n].pad|] == s.pages[n].pad
      && forall k :: |s.pages[n].pad| <= k < |r.pages[n].pad| ==> r.pages[n].pad[k].tone == Bad
  {
    var msg := ResultText(res.result, Formatter.ProgName(args[0]), res.status);
    RunLines(s, msg, res.output);
  }

  /** The lines a message adds to the last report: one red line per line of the message, after the old ones. */
  lemma RunLines(s: Screen, msg: Option<string>, output: string)
    requires s.pages != []
    ensures var r := AfterRun(s, msg, output).0;
      var n := |s.pages| - 1;
      r.pages[..n] == s.pages[..n] && r.pages[n].output == output
      && |r.pages[n].pad| == |s.pages[n].pad| + (if msg.None? then 0 else |SplitLines(msg.value)|)
      && r.pages[n].pad[..|s.pages[n].pad|] == s.pages[n].pad
      && forall k :: |s.pages[n].pad| <= k < |r.pages[n].pad| ==> r.pages[n].pad[k].tone == Bad
  {
    var n := |s.pages| - 1;
    var m := |s.pages[n].pad|;
    var ls := MessageLines(msg);
    var p := AddAll(s.pages[n], ls);
    assert AfterRun(s, msg, output).0.pages == s.pages[n := p.(output := output)];
    forall k | m <= k < |p.pad|
      ensures p.pad[k].tone == Bad
    {
      assert p.pad[m + (k - m)] == ls[k - m].(text := Cut(ls[k - m].text, MaxWidth));
    }
  }

  /** `begin_session` clears the totals but keeps every section's counters, and shows the waiting page. */
  lemma SessionResets(s: Screen)
    ensures var r := OnBeginSession(s);
      r.counters.ok == 0 && r.counters.warn == 0 && r.counters.err == 0 && r.running
      && r.counters.sections == s.counters.sections
      && r.counters.okCounts == s.counters.okCounts && r.counters.warnCounts == s.counters.warnCounts
      && r.counters.errCounts == s.counters.errCounts
      && Ready(r) && r.index == 0 && r.pages[..|s.pages|] == s.pages
  {
  }

  /**
   * RIGHT moves to the next report and stops at the last; LEFT moves to the
   * previous one but never back to the waiting page once a test report
   * exists. Both keep the index on a report.
   */
  lemma Navigation(s: Screen)
    requires Ready(s)
    ensures var r := OnNextReport(s);
      Ready(r) && r.index == (if s.index < |s.pages| - 1 then s.index + 1 else s.index)
    ensures var r := OnPreviousReport(s);
      Ready(r)
      && (|s.pages| > 1 ==> r.index >= 1 && r.index == (if s.index >= 2 then s.index - 1 else 1))
      && (|s.pages| == 1 ==> r.index == s.index)
  {
  }

  /** The scrolling keys change only the scroll position of the report on screen, within its bounds. */
  lemma ScrollKeeps(s: Screen, h: int, lines: int, pages: int, documents: int)
    requires Ready(s)
    ensures var (r, error) := OnScroll(s, h, lines, pages, documents);
      error.None? && r.index == s.index && |r.pages| == |s.pages| && r.counters == s.counters
      && (forall k :: 0 <= k < |s.pages| && k != s.index ==> r.pages[k] == s.pages[k])
      && r.pages[s.index] == s.pages[s.index].(position := r.pages[s.index].position)
      && 0 <= r.pages[s.index].position <= Max(0, s.pages[s.index].length - h)
  {
  }

  // ---------------------------------------------------------------------
  // A session

  /** The calls of a session in order, stopping at the first exception. */
  function Run(s: Screen, es: seq<Event>): (r: (Screen, Option<PyError>))
    requires Registered(s.counters)
    ensures Registered(r.0.counters)
    decreases |es|
  {
    if es == [] then (s, None)
    else
      NextKeepsRegistered(s, es[0]);
      var (s1, error) := Next(s, es[0]);
      if error.Some? then (s1, error) else Run(s1, es[1..])
  }

  lemma OnComparisonTallied(s: Screen, expected: Section, diffs: seq<real>)
    requires Registered(s.counters) && Tallied(s.counters)
    ensures Tallied(OnComparison(s, expected, diffs).0.counters)
  {
    if s.pages != [] {
      assert OnComparison(s, expected, diffs).0.counters ==
             CountComparison(Register(s.counters, expected.tag), expected.tag, Passes(diffs));
      RegisterTallied(s.counters, expected.tag);
      ComparisonTallied(Register(s.counters, expected.tag), expected.tag, Passes(diffs));
    }
  }

  lemma OnMissingTallied(s: Screen, expected: Section)
    requires Registered(s.counters) && Tallied(s.counters)
    ensures Tallied(OnMissing(s, expected).0.counters)
  {
    assert OnMissing(s, expected).0.counters == CountMissing(Register(s.counters, expected.tag), expected.tag);
    RegisterTallied(s.counters, expected.tag);
    MissingTallied(Register(s.counters, expected.tag), expected.tag);
  }

  /** Every call but `begin_session` keeps the counters tallied. */
  lemma NextTallied(s: Screen, e: Event)
    requires Registered(s.counters) && Tallied(s.counters) && !e.BeginSession?
    ensures Registered(Next(s, e).0.counters) && Tallied(Next(s, e).0.counters)
  {
    NextKeepsRegistered(s, e);
    match e
    case ComparisonResult(expected, _, diffs, _) =>
      assert Next(s, e) == OnComparison(s, expected, diffs);
      OnComparisonTallied(s, expected, diffs);
    case MissingSection(expected) =>
      assert Next(s, e) == OnMissing(s, expected);
      OnMissingTallied(s, expected);
    case ExecutionResult(args, result, _) =>
      assert Next(s, e) == OnExecutionResult(s, args, result);
      ExecutionCounts(s, args, result);
    case BeginTest(description, _, _, _) =>
      assert Next(s, e).0 == OnBeginTest(s, description);
    case _ =>
  }


  /** Every call but `begin_session` keeps the screen on a report, off the waiting page once a test began. */
  lemma NextShowing(s: Screen, e: Event)
    requires Registered(s.counters) && Showing(s) && !e.BeginSession?
    ensures |Next(s, e).0.pages| >= |s.pages| && Showing(Next(s, e).0)
  {
  }

  /**
   * Within a session the totals stay tallied against the per-section
   * counters, and a test report, once one exists, stays on the screen
   * instead of the waiting page.
   */
  lemma {:induction false} SessionKeeps(s: Screen, es: seq<Event>)
    requires Registered(s.counters) && Tallied(s.counters) && Showing(s)
    requires forall k :: 0 <= k < |es| ==> !es[k].BeginSession?
    ensures Tallied(Run(s, es).0.counters) && Showing(Run(s, es).0)
    decreases |es|
  {
    if es != [] {
      NextTallied(s, es[0]);
      NextShowing(s, es[0]);
      var (s1, error) := Next(s, es[0]);
      if error.None? {
        SessionKeeps(s1, es[1..]);
      }
    }
  }

  /** A fresh formatter's `begin_session` starts a tallied session on the waiting page. */
  lemma SessionStart()
    ensures Registered(OnBeginSession(Initial()).counters) && Tallied(OnBeginSession(Initial()).counters)
    ensures Showing(OnBeginSession(Initial())) && OnBeginSession(Initial()).index == 0
  {
  }

  // ---------------------------------------------------------------------
  // The difference lines `comparison_result` means to write

  /** The note for an expected line the program did not print. */
  function MissingNote(expected: string): string {
    "\t\t(missing line '" + expected + "')"
  }

  /** The note as the source writes it, without its closing parenthesis. */
  function MissingNoteAsWritten(expected: string): string {
    "\t\t(missing line '" + expected + "'"
  }

  /** The written note ends on the quote, so the parenthesis it opens stays open. */
  lemma MissingNoteUnclosed(expected: string)
    ensures var w := MissingNoteAsWritten(expected);
      w[|w| - 1] == '\'' && MissingNote(expected) == w + ")"
  {
  }

  /**
   * The line for position `i`: the received line (empty past its end) in
   * green when the difference is not positive; otherwise in red with a note,
   * closed by a parenthesis, on the unexpected, missing or wrong line.
   * Reading `matches` past its end fails.
   */
  function DiffLine(i: nat, d: real, matches: seq<Option<string>>, got: seq<string>): (r: Outcome<Line>)
    ensures r.Raised? <==> d > 0.0 && i >= |matches|
    ensures r.Raised? ==> r.error == IndexError
    ensures r.Returned? ==> !r.value.bold && (r.value.tone == Good <==> d <= 0.0) && (r.value.tone != Good ==> r.value.tone == Bad)
    ensures r.Returned? && d > 0.0 ==> |r.value.text| > 0 && r.value.text[|r.value.text| - 1] == ')'
    ensures r.Returned? && d > 0.0 && matches[i].Some? ==> Contains(r.value.text, matches[i].value)
  {
    var out := if i < |got| then got[i] else "";
    if d <= 0.0 then Returned(Line(out, Good, false))
    else if i >= |matches| then Raised(IndexError)
    else if matches[i].None? then Returned(Line(out + "\t\t(this line was not expected)", Bad, false))
    else if i >= |got| then
      ContainsMiddle("\t\t(missing line '", matches[i].value, "')");
      Returned(Line(MissingNote(matches[i].value), Bad, false))
    else
      ContainsMiddle(out + "\t\t(expected '", matches[i].value, "')");
      Returned(Line(out + "\t\t(expected '" + matches[i].value + "')", Bad, false))
  }

  /** The lines of the first `n` differences, one each. */
  function DiffLines(diffs: seq<real>, matches: seq<Option<string>>, got: seq<string>, n: nat): Outcome<seq<Line>>
    requires n <= |diffs|
  {
    if n == 0 then Returned([])
    else
      match DiffLines(diffs, matches, got, n - 1)
      case Raised(e) => Raised(e)
      case Returned(ls) =>
        match DiffLine(n - 1, diffs[n - 1], matches, got)
        case Raised(e) => Raised(e)
        case Returned(l) => Returned(ls + [l])
  }

  /**
   * The difference lines, with the received lines shown as they are: one
   * line per difference, green exactly for the differences that are not
   * positive, failing only when `matches` is shorter than a positive
   * difference needs.
   */
  lemma {:induction false} DiffLinesShape(diffs: seq<real>, matches: seq<Option<string>>, got: seq<string>, n: nat)
    requires n <= |diffs|
    ensures var r := DiffLines(diffs, matches, got, n);
      (r.Returned? <==> forall i :: 0 <= i < n && diffs[i] > 0.0 ==> i < |matches|)
      && (r.Returned? ==>
            |r.value| == n
            && forall i :: 0 <= i < n ==>
                 (r.value[i].tone == Good <==> diffs[i] <= 0.0)
                 && (diffs[i] <= 0.0 ==> r.value[i].text == if i < |got| then got[i] else ""))
    decreases n
  {
    if n > 0 {
      DiffLinesShape(diffs, matches, got, n - 1);
    }
  }

  /**
   * As written, a comparison with any difference stops at the undefined
   * helper after the heading, even a fully correct one: no difference line
   * and no blank line reach the report, where one green line was meant.
   */
  lemma UndefinedHelperCounterexample()
    ensures var s := OnBeginSession(Initial());
      var (r, error) := OnComparison(s, Section("x", ["1"]), [0.0]);
      error == Some(AttributeError) && r.pages[0].pad == s.pages[0].pad + [Line("[x]", Good, true)]
      && DiffLines([0.0], [Some("1")], ["1"], 1) == Returned([Line("1", Good, false)])
  {
    var s := OnBeginSession(Initial());
    assert s.pages == [WaitingPage];
    assert Passes([0.0]);
    assert "[" + "x" + "]" == "[x]";
    var heading := Line("[x]", Good, true);
    assert Cut("[x]", MaxWidth) == "[x]";
    AddOne(s.pages[0], heading);
    assert Written(s.pages[0], [heading], None).pad == s.pages[0].pad + [heading];
    var (r, error) := OnComparison(s, Section("x", ["1"]), [0.0]);
    assert r.pages == [Written(s.pages[0], [heading], None)];
    assert DiffLines([0.0], [Some("1")], ["1"], 0) == Returned([]);
    assert DiffLine(0, 0.0, [Some("1")], ["1"]) == Returned(Line("1", Good, false));
    assert [] + [Line("1", Good, false)] == [Line("1", Good, false)];
  }

  // ---------------------------------------------------------------------
  // The formatter

  /** The reports as values, in order. */
  function Views(rs: seq<Report>): (ps: seq<Page>)
    reads rs
    ensures |ps| == |rs|
    decreases |rs|
  {
    if rs == [] then [] else Views(rs[..|rs| - 1]) + [rs[|rs| - 1].View()]
  }

  /** `Views` holds the view of each report at its own position. */
  lemma {:induction false} ViewsAt(rs: seq<Report>)
    ensures forall k :: 0 <= k < |rs| ==> Views(rs)[k] == rs[k].View()
    decreases |rs|
  {
    if rs != [] {
      ViewsAt(rs[..|rs| - 1]);
    }
  }

  ghost predicate Distinct(rs: seq<Report>) {
    forall i, j :: 0 <= i < j < |rs| ==> rs[i] != rs[j]
  }

  /** Every report is as wide as `MAX_W`. */
  predicate Sound(rs: seq<Report>) {
    forall k :: 0 <= k < |rs| ==> rs[k].maxWidth == MaxWidth
  }

  /** A new report appended to the list. */
  lemma Appended(rs: seq<Report>, r: Report)
    requires Distinct(rs) && Sound(rs) && r !in rs && r.maxWidth == MaxWidth
    ensures Distinct(rs + [r]) && Sound(rs + [r]) && Views(rs + [r]) == Views(rs) + [r.View()]
  {
    assert (rs + [r])[..|rs|] == rs;
  }

  /** No report of the list changed. */
  twostate lemma {:induction false} NoneChanged(rs: seq<Report>)
    requires forall k :: 0 <= k < |rs| ==> unchanged(rs[k])
    ensures Views(rs) == old(Views(rs))
    decreases |rs|
  {
    if rs != [] {
      NoneChanged(rs[..|rs| - 1]);
      assert unchanged(rs[|rs| - 1]);
    }
  }

  /** Every line of `ls` added to `report` in order, as repeated `add_line` calls do. */
  method AddLines(report: Report, ls: seq<Line>)
    requires report.maxWidth == MaxWidth
    modifies report
    ensures report.View() == AddAll(old(report.View()), ls)
  {
    var i := 0;
    while i < |ls|
      invariant 0 <= i <= |ls|
      invariant report.View() == AddAll(old(report.View()), ls[..i])
    {
      report.AddLine(ls[i].text, ls[i].tone, ls[i].bold);
      assert ls[..i + 1][..i] == ls[..i];
      i := i + 1;
    }
    assert ls[..|ls|] == ls;
  }

  /** `InteractiveFormatter`: the reports, the one on screen, and the counters. */
  class InteractiveFormatter {
    var reports: seq<Report>
    var index: int
    var counters: Counters
    var running: bool

    function State(): Screen
      reads this, reports
    {
      Screen(Views(reports), index, counters, running)
    }

    ghost predicate Valid()
      reads this, reports
    {
      Distinct(reports) && Sound(reports) && Registered(counters)
    }

    /** The report the next line goes to, as a frame. */
    function Last(): set<object>
      reads this
    {
      if reports == [] then {} else {reports[|reports| - 1]}
    }

    /** The report on screen, as a frame. */
    function Current(): set<object>
      reads this
    {
      match PyIndex(index, |reports|)
      case None => {}
      case Some(k) => {reports[k]}
    }

    constructor()
      ensures Valid() && State() == Initial()
    {
      reports := [];
      index := 0;
      counters := Counters([], map[], map[], map[], 0, 0, 0);
      running := false;
    }

    method BeginSession()
      requires Valid()
      modifies this
      ensures Valid() && State() == OnBeginSession(old(State()))
    {
      TotalsFree(counters, 0, 0, 0);
      counters := counters.(ok := 0, warn := 0, err := 0);
      running := true;
      var waiting := new Report(WaitingTitle, MaxWidth);
      waiting.AddLine(WaitingLine, Plain, false);
      assert waiting.View() == WaitingPage;
      var rs := reports;
      reports := rs + [waiting];
      index := 0;
      NoneChanged(rs);
      Appended(rs, waiting);
    }

    method EndSession()
      requires Valid()
      modifies this
      ensures Valid() && State() == old(State()).(running := false)
    {
      running := false;
    }

    /** `begin_test`; the command line, input and temporary file feed only the "i" page. */
    method BeginTest(description: Option<string>, args: seq<Arg>, input: string, tmpfile: Option<string>)
      requires Valid()
      modifies this
      ensures Valid() && State() == OnBeginTest(old(State()), description)
    {
      var title := if description.Some? then description.value else "";
      var report := new Report(title, MaxWidth);
      var rs := reports;
      reports := rs + [report];
      if index == 0 {
        index := 1;
      }
      NoneChanged(rs);
      Appended(rs, report);
    }

    /** Lines added to the last report, and its output replaced when one is given. */
    method WriteLast(ls: seq<Line>, output: Option<string>)
      requires Valid() && reports != []
      modifies Last()
      ensures Valid()
      ensures var s := old(State()); var n := |s.pages| - 1;
        State() == s.(pages := s.pages[n := Written(s.pages[n], ls, output)])
    {
      var n := |reports| - 1;
      var last := reports[n];
      ViewsAt(reports);
      AddLines(last, ls);
      if output.Some? {
        last.output := output.value;
      }
      forall j | 0 <= j < |reports| && j != n
        ensures reports[j].View() == old(reports[j].View())
      {
      }
      ViewsAt(reports);
      assert Views(reports) == old(Views(reports))[n := reports[n].View()];
    }

    method ExecutionResult(args: seq<Arg>, res: ExecResult) returns (error: Option<PyError>)
      requires Valid()
      modifies this, Last()
      ensures Valid() && (State(), error) == OnExecutionResult(old(State()), args, res)
    {
      if args == [] {
        return Some(IndexError);
      }
      var msg := ResultText(res.result, Formatter.ProgName(args[0]), res.status);
      error := Record(msg, res.output);
    }

    /** The part of `execution_result` after the message is chosen. */
    method Record(msg: Option<string>, output: string) returns (error: Option<PyError>)
      requires Valid()
      modifies this, Last()
      ensures Valid() && (State(), error) == AfterRun(old(State()), msg, output)
    {
      if msg.Some? {
        TallyError();
      }
      if reports == [] {
        return Some(IndexError);
      }
      WriteLast(MessageLines(msg), Some(output));
      error := None;
    }

    /** `_new_section`. */
    method NewSection(tag: string)
      requires Valid()
      modifies this
      ensures Valid() && State() == old(State()).(counters := Register(old(counters), tag))
      ensures reports == old(reports) && tag in counters.sections
    {
      RegisterAdds(counters, tag);
      counters := Register(counters, tag);
    }

    /** The counting half of `comparison_result`: the section registered, then one pass or one failure. */
    method TallyComparison(tag: string, passed: bool)
      requires Valid()
      modifies this
      ensures Valid() && State() == old(State()).(counters := CountComparison(Register(old(counters), tag), tag, passed))
      ensures reports == old(reports)
    {
      NewSection(tag);
      counters := CountComparison(counters, tag, passed);
    }

    /** The counting half of `missing_section`: the section registered, then one more warning. */
    method TallyMissing(tag: string)
      requires Valid()
      modifies this
      ensures Valid() && State() == old(State()).(counters := CountMissing(Register(old(counters), tag), tag))
      ensures reports == old(reports)
    {
      NewSection(tag);
      counters := CountMissing(counters, tag);
    }

    /** One more error in the totals, as a failed run counts. */
    method TallyError()
      requires Valid()
      modifies this
      ensures Valid() && State() == old(State()).(counters := old(counters).(err := old(counters).err + 1))
      ensures reports == old(reports)
    {
      TotalsFree(counters, counters.ok, counters.warn, counters.err + 1);
      counters := counters.(err := counters.err + 1);
    }

    /** `comparison_result` as written (see `OnComparison`). */
    method ComparisonResult(expected: Section, got: Section, diffs: seq<real>, matches: seq<Option<string>>)
      returns (error: Option<PyError>)
      requires Valid()
      modifies this, Last()
      ensures Valid() && (State(), error) == OnComparison(old(State()), expected, diffs)
    {
      if reports == [] {
        return Some(IndexError);
      }
      var passed := Passes(diffs);
      TallyComparison(expected.tag, passed);
      var heading := Line("[" + expected.tag + "]", if passed then Good else Bad, true);
      var ls := if diffs != [] then [heading] else [heading, Line("", Plain, false)];
      WriteLast(ls, None);
      error := if diffs != [] then Some(AttributeError) else None;
    }

    method MissingSection(expected: Section) returns (error: Option<PyError>)
      requires Valid()
      modifies this, Last()
      ensures Valid() && (State(), error) == OnMissing(old(State()), expected)
    {
      TallyMissing(expected.tag);
      if reports == [] {
        return Some(IndexError);
      }
      WriteLast([Line(MissingText(expected.tag), Warn, false), Line("", Plain, false)], None);
      error := None;
    }

    /** One call of the checker on the formatter. */
    method Dispatch(e: Event) returns (error: Option<PyError>)
      requires Valid()
      modifies this, Last()
      ensures Valid() && (State(), error) == Next(old(State()), e)
    {
      ghost var s := State();
      match e
      case BeginSession =>
        BeginSession();
        error := None;
        assert Next(s, e) == (OnBeginSession(s), None);
      case EndSession =>
        EndSession();
        error := None;
        assert Next(s, e) == (s.(running := false), None);
      case BeginTest(description, args, input, tmpfile) =>
        BeginTest(description, args, input, tmpfile);
        error := None;
        assert Next(s, e) == (OnBeginTest(s, description), None);
      case EndTest =>
        error := None;
      case ExecutionResult(args, result, _) =>
        error := ExecutionResult(args, result);
        assert Next(s, e) == OnExecutionResult(s, args, result);
      case PlainExecutionResult(_, _) =>
        error := Some(TypeError);
      case ComparisonResult(expected, got, diffs, matches) =>
        error := ComparisonResult(expected, got, diffs, matches);
        assert Next(s, e) == OnComparison(s, expected, diffs);
      case MissingSection(expected) =>
        error := MissingSection(expected);
        assert Next(s, e) == OnMissing(s, expected);
    }

    /** RIGHT. */
    method NextReport()
      requires Valid()
      modifies this
      ensures Valid() && State() == OnNextReport(old(State()))
    {
      index := Min(index + 1, |reports| - 1);
    }

    /** LEFT. */
    method PreviousReport()
      requires Valid()
      modifies this
      ensures Valid() && State() == OnPreviousReport(old(State()))
    {
      if |reports| > 1 {
        index := Max(index - 1, 1);
      }
    }

    /**
     * UP/DOWN (`lines` -1/1), PgUP/PgDN (`pages` -1/1) and HOME/END
     * (`documents` -1/1), `h` being the text height of the terminal.
     */
    method ScrollReport(h: int, lines: int, pages: int, documents: int) returns (error: Option<PyError>)
      requires Valid()
      modifies Current()
      ensures Valid() && (State(), error) == OnScroll(old(State()), h, lines, pages, documents)
    {
      var k := PyIndex(index, |reports|);
      if k.None? {
        return Some(IndexError);
      }
      ViewsAt(reports);
      reports[k.value].Scroll(h, lines, pages, documents);
      forall j | 0 <= j < |reports| && j != k.value
        ensures reports[j].View() == old(reports[j].View())
      {
      }
      ViewsAt(reports);
      assert Views(reports) == old(Views(reports))[k.value := reports[k.value].View()];
      error := None;
    }
  }
}
