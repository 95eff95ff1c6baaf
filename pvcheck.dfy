/**
 * The checker's main loop (pvcheck/pvcheck.py): for each test case it
 * builds the command line, runs the program, parses its output into
 * sections and compares every expected section with the answer, reporting
 * each step to the formatter. The executor is a function the checker is
 * given; the formatter is the trace of the calls made on it.
 */
module PvCheck {
  import opened Common
  import opened Text
  import opened TestData
  import opened Parser
  import opened Match
  import opened Executor
  import opened Events

  /** `exec_process(args, input, tmpfile, timeout, output_limit)`, raising or returning a result. */
  type ExecFn = (seq<Arg>, string, Option<string>, Option<real>, Option<nat>) -> Outcome<ExecResult>

  const InputTag := ".INPUT"
  const FileTag := ".FILE"
  const ArgsTag := ".ARGS"
  /** The argument that stands for the temporary file. */
  const FileArg := ".FILE"
  /** The option that makes a section compare without regard to order. */
  const Unordered := "unordered"

  // ---------------------------------------------------------------------
  // what a test case gives the program

  /** `find_section_content(".INPUT", "")`. */
  function InputText(secs: seq<Section>): string {
    match Lookup(secs, InputTag)
    case None => ""
    case Some(c) => Terminated(c)
  }

  /** `find_section_content(".FILE", None)`. */
  function FileText(secs: seq<Section>): (r: Option<string>)
    ensures r.None? <==> FileTag !in Tags(secs)
  {
    match Lookup(secs, FileTag)
    case None => None
    case Some(c) => Some(Terminated(c))
  }

  /** `map(str.strip, lines)`. */
  function StripAll(lines: seq<string>): (r: seq<string>)
    ensures |r| == |lines| && forall k :: 0 <= k < |lines| ==> r[k] == Strip(lines[k])
  {
    seq(|lines|, k requires 0 <= k < |lines| => Strip(lines[k]))
  }

  /** The given arguments followed by the stripped `.ARGS` lines. */
  function GivenArgs(args: seq<string>, secs: seq<Section>): seq<string> {
    match Lookup(secs, ArgsTag)
    case None => args
    case Some(c) => args + StripAll(c)
  }

  function Words(ws: seq<string>): (r: seq<Arg>)
    ensures |r| == |ws| && forall k :: 0 <= k < |ws| ==> r[k] == Word(ws[k])
  {
    if ws == [] then [] else [Word(ws[0])] + Words(ws[1..])
  }

  /**
   * The command line of `_exec_test` as written: with both `.ARGS` and
   * `.FILE` present, each argument equal to ".FILE" is to be replaced
   * through a module that was never bound, so the first such argument makes
   * Python raise NameError; the other arguments are kept as they are.
   */
  function BuildArgs(args: seq<string>, secs: seq<Section>): (r: Outcome<seq<Arg>>)
  {
    var ws := GivenArgs(args, secs);
    if ArgsTag in Tags(secs) && FileTag in Tags(secs) && FileArg in ws then Raised(NameError)
    else Returned(Words(ws))
  }

  /** Every `.FILE` argument replaced by the temporary-file placeholder. */
  function FileArgs(ws: seq<string>): (r: seq<Arg>)
    ensures |r| == |ws|
    ensures forall k :: 0 <= k < |ws| ==> r[k] == if ws[k] == FileArg then TmpFile else Word(ws[k])
  {
    if ws == [] then [] else [if ws[0] == FileArg then TmpFile else Word(ws[0])] + FileArgs(ws[1..])
  }

  /** The command line `_exec_test` is meant to build, as the older generation does build it. */
  function IntendedArgs(args: seq<string>, secs: seq<Section>): (r: seq<Arg>)
  {
    var ws := GivenArgs(args, secs);
    if ArgsTag in Tags(secs) && FileTag in Tags(secs) then FileArgs(ws) else Words(ws)
  }

  /** Without a ".FILE" argument, the substitution leaves every word as it is. */
  lemma {:induction false} FileArgsPlain(ws: seq<string>)
    requires FileArg !in ws
    ensures FileArgs(ws) == Words(ws)
  {
    if ws != [] {
      FileArgsPlain(ws[1..]);
      assert ws == [ws[0]] + ws[1..];
    }
  }

  /**
   * As written, a test case raises NameError exactly when it has `.ARGS`
   * and `.FILE` and some argument, given or from `.ARGS`, is ".FILE".
   */
  lemma BuildArgsRaises(args: seq<string>, secs: seq<Section>)
    ensures BuildArgs(args, secs).Raised? <==>
      ArgsTag in Tags(secs) && FileTag in Tags(secs) &&
      exists k :: 0 <= k < |GivenArgs(args, secs)| && GivenArgs(args, secs)[k] == FileArg
    ensures BuildArgs(args, secs).Raised? ==> BuildArgs(args, secs).error == NameError
  {}

  /**
   * The intended command line: the given arguments then the stripped
   * `.ARGS` lines, every `.FILE` among them becoming the placeholder when
   * the test has a `.FILE` section and `.ARGS`; elsewhere it is what the
   * code builds.
   */
  lemma IntendedArgsShape(args: seq<string>, secs: seq<Section>)
    ensures ArgsTag !in Tags(secs) ==> IntendedArgs(args, secs) == Words(args)
    ensures ArgsTag in Tags(secs) ==>
      |IntendedArgs(args, secs)| == |args| + |Prior(secs, ArgsTag)| &&
      forall k :: 0 <= k < |IntendedArgs(args, secs)| ==>
        var w := if k < |args| then args[k] else Strip(Prior(secs, ArgsTag)[k - |args|]);
        IntendedArgs(args, secs)[k] == if w == FileArg && FileTag in Tags(secs) then TmpFile else Word(w)
    ensures BuildArgs(args, secs).Returned? ==> BuildArgs(args, secs) == Returned(IntendedArgs(args, secs))
  {
    var ws := GivenArgs(args, secs);
    if ArgsTag in Tags(secs) && FileTag in Tags(secs) && FileArg !in ws {
      FileArgsPlain(ws);
    }
  }

  // ---------------------------------------------------------------------
  // _check_output

  /** `section_options(tag)`. */
  function Options(options: map<string, set<string>>, tag: string): set<string> {
    if tag in options then options[tag] else {}
  }

  /** A comparison with every difference zero. */
  predicate Perfect(e: Event) {
    e.ComparisonResult? && MaxDiff(e.diffs) == 0.0
  }

  /**
   * The event reported for expected section `s`: the comparison with the
   * first answer carrying its tag, ordered unless the section's options say
   * "unordered", or a missing section when no answer carries it.
   */
  ghost predicate SectionChecked(s: Section, answers: seq<Section>, options: map<string, set<string>>,
                                 roundEq: RoundCheck, e: Event)
  {
    match Find(answers, s.tag)
    case None => e == MissingSection(s)
    case Some(k) =>
      e.ComparisonResult? && e.expected == s && e.got == answers[k] &&
      SectionComparison(answers[k].content, s.content, Unordered !in Options(options, s.tag), roundEq, e.diffs, e.matches)
  }

  /** One event per expected section, in order. */
  ghost predicate CheckEvents(expected: seq<Section>, answers: seq<Section>, options: map<string, set<string>>,
                              roundEq: RoundCheck, evs: seq<Event>)
  {
    |evs| == |expected| &&
    forall k :: 0 <= k < |expected| ==> SectionChecked(expected[k], answers, options, roundEq, evs[k])
  }

  /** The events of `_check_output` and its verdict: passed iff every expected section compared perfectly. */
  ghost predicate CheckTrace(expected: seq<Section>, answers: seq<Section>, options: map<string, set<string>>,
                             roundEq: RoundCheck, evs: seq<Event>, success: bool)
  {
    CheckEvents(expected, answers, options, roundEq, evs) &&
    (success <==> AllPerfect(evs))
  }

  predicate AllPerfect(evs: seq<Event>) {
    forall k :: 0 <= k < |evs| ==> Perfect(evs[k])
  }

  lemma CheckEventsSnoc(expected: seq<Section>, answers: seq<Section>, options: map<string, set<string>>,
                        roundEq: RoundCheck, evs: seq<Event>, s: Section, e: Event)
    requires CheckEvents(expected, answers, options, roundEq, evs)
    requires SectionChecked(s, answers, options, roundEq, e)
    ensures CheckEvents(expected + [s], answers, options, roundEq, evs + [e])
    ensures AllPerfect(evs + [e]) <==> AllPerfect(evs) && Perfect(e)
  {
    SnocIndex(expected, s);
    SnocIndex(evs, e);
  }

  /** One iteration of `_check_output`: the answer section with the tag of `s`, if any, compared with `s`. */
  method CheckSection(c: TestCase, s: Section, answers: seq<Section>, roundEq: RoundCheck) returns (e: Event)
    ensures SectionChecked(s, answers, c.options, roundEq, e)
  {
    var j := 0;
    while j < |answers| && answers[j].tag != s.tag
      invariant 0 <= j <= |answers|
      invariant forall k :: 0 <= k < j ==> answers[k].tag != s.tag
    {
      j := j + 1;
    }
    if j < |answers| {
      FindIs(answers, s.tag, Some(j));
      var ordered := Unordered !in c.SectionOptions(s.tag);
      var diffs, matches := CompareSections(answers[j].content, s.content, ordered, roundEq);
      e := ComparisonResult(s, answers[j], diffs, matches);
    } else {
      FindIs(answers, s.tag, None);
      e := MissingSection(s);
    }
  }

  // ---------------------------------------------------------------------
  // _exec_test

  /**
   * The events of one `_exec_test` and what it returns or raises: nothing
   * when the command line cannot be built; `begin_test` alone when the
   * executor raises; otherwise `begin_test`, `execution_result` and, only
   * for ER_OK, the events of `_check_output` whose verdict is returned.
   */
  ghost predicate TestRun(exec: ExecFn, roundEq: RoundCheck, description: Option<string>, secs: seq<Section>,
                          options: map<string, set<string>>, args: seq<string>, timeout: Option<real>,
                          limit: Option<nat>, evs: seq<Event>, r: Outcome<bool>)
  {
    match BuildArgs(args, secs)
    case Raised(e) => evs == [] && r == Raised(e)
    case Returned(cmd) =>
      var begin := BeginTest(description, cmd, InputText(secs), FileText(secs));
      match exec(cmd, InputText(secs), FileText(secs), timeout, limit)
      case Raised(e) => evs == [begin] && r == Raised(e)
      case Returned(res) =>
        |evs| >= 2 && evs[0] == begin && evs[1] == ExecutionResult(cmd, res, Regular(secs)) && r.Returned? &&
        if res.result == ErOk then
          CheckTrace(Regular(secs), Parse(SplitLines(res.output)), options, roundEq, evs[2..], r.value)
        else evs[2..] == [] && !r.value
  }

  /** The four ways `_exec_test` ends, each a run of `TestRun`. */
  lemma ArgsFail(exec: ExecFn, roundEq: RoundCheck, description: Option<string>, secs: seq<Section>,
                 options: map<string, set<string>>, args: seq<string>, timeout: Option<real>,
                 limit: Option<nat>)
    requires ArgsTag in Tags(secs) && FileTag in Tags(secs) && FileArg in GivenArgs(args, secs)
    ensures TestRun(exec, roundEq, description, secs, options, args, timeout, limit, [], Raised(NameError))
  {}

  lemma ExecFails(exec: ExecFn, roundEq: RoundCheck, description: Option<string>, secs: seq<Section>,
                  options: map<string, set<string>>, args: seq<string>, timeout: Option<real>,
                  limit: Option<nat>, cmd: seq<Arg>, e: PyError)
    requires BuildArgs(args, secs) == Returned(cmd)
    requires exec(cmd, InputText(secs), FileText(secs), timeout, limit) == Raised(e)
    ensures TestRun(exec, roundEq, description, secs, options, args, timeout, limit,
                    [BeginTest(description, cmd, InputText(secs), FileText(secs))], Raised(e))
  {}

  lemma ExecNotOk(exec: ExecFn, roundEq: RoundCheck, description: Option<string>, secs: seq<Section>,
                  options: map<string, set<string>>, args: seq<string>, timeout: Option<real>,
                  limit: Option<nat>, cmd: seq<Arg>, res: ExecResult)
    requires BuildArgs(args, secs) == Returned(cmd)
    requires exec(cmd, InputText(secs), FileText(secs), timeout, limit) == Returned(res)
    requires res.result != ErOk
    ensures TestRun(exec, roundEq, description, secs, options, args, timeout, limit,
                    [BeginTest(description, cmd, InputText(secs), FileText(secs)), ExecutionResult(cmd, res, Regular(secs))],
                    Returned(false))
  {}

  lemma ExecOk(exec: ExecFn, roundEq: RoundCheck, description: Option<string>, secs: seq<Section>,
               options: map<string, set<string>>, args: seq<string>, timeout: Option<real>,
               limit: Option<nat>, cmd: seq<Arg>, res: ExecResult, rest: seq<Event>, passed: bool)
    requires BuildArgs(args, secs) == Returned(cmd)
    requires exec(cmd, InputText(secs), FileText(secs), timeout, limit) == Returned(res)
    requires res.result == ErOk
    requires CheckTrace(Regular(secs), Parse(SplitLines(res.output)), options, roundEq, rest, passed)
    ensures TestRun(exec, roundEq, description, secs, options, args, timeout, limit,
                    [BeginTest(description, cmd, InputText(secs), FileText(secs)), ExecutionResult(cmd, res, Regular(secs))] + rest,
                    Returned(passed))
  {
    var evs := [BeginTest(description, cmd, InputText(secs), FileText(secs)), ExecutionResult(cmd, res, Regular(secs))] + rest;
    assert evs[2..] == rest;
  }

  /**
   * A test passes iff the program ran with ER_OK and every expected
   * non-special section was found and compared perfectly; answers with
   * other tags play no part.
   */
  lemma PassRule(exec: ExecFn, roundEq: RoundCheck, description: Option<string>, secs: seq<Section>,
                 options: map<string, set<string>>, args: seq<string>, timeout: Option<real>,
                 limit: Option<nat>, evs: seq<Event>, passed: bool)
    requires TestRun(exec, roundEq, description, secs, options, args, timeout, limit, evs, Returned(passed))
    ensures |evs| >= 2 && evs[1].ExecutionResult?
    ensures passed <==> evs[1].result.result == ErOk && forall k :: 2 <= k < |evs| ==> Perfect(evs[k])
  {
    var cmd := BuildArgs(args, secs).value;
    var res := exec(cmd, InputText(secs), FileText(secs), timeout, limit).value;
    if res.result == ErOk {
      var rest := evs[2..];
      assert forall k :: 2 <= k < |evs| ==> evs[k] == rest[k - 2];
    }
  }

  /**
   * Comparisons and missing sections are reported only after ER_OK; then
   * there is exactly one per expected non-special section, a missing one
   * exactly for the tags the output lacks.
   */
  lemma ReportedSections(exec: ExecFn, roundEq: RoundCheck, description: Option<string>, secs: seq<Section>,
                         options: map<string, set<string>>, args: seq<string>, timeout: Option<real>,
                         limit: Option<nat>, evs: seq<Event>, passed: bool)
    requires TestRun(exec, roundEq, description, secs, options, args, timeout, limit, evs, Returned(passed))
    ensures |evs| >= 2 && evs[1].ExecutionResult?
    ensures evs[1].result.result != ErOk ==> |evs| == 2
    ensures evs[1].result.result == ErOk ==>
      |evs| == 2 + |Regular(secs)| &&
      forall k :: 0 <= k < |Regular(secs)| ==>
        (evs[k + 2].MissingSection? <==> Regular(secs)[k].tag !in Tags(Parse(SplitLines(evs[1].result.output))))
  {
    var cmd := BuildArgs(args, secs).value;
    var res := exec(cmd, InputText(secs), FileText(secs), timeout, limit).value;
    if res.result == ErOk {
      var answers := Parse(SplitLines(res.output));
      forall k | 0 <= k < |Regular(secs)|
        ensures evs[k + 2].MissingSection? <==> Regular(secs)[k].tag !in Tags(answers)
      {
        assert evs[2..][k] == evs[k + 2];
        FindTags(answers, Regular(secs)[k].tag);
      }
    }
  }

  // ---------------------------------------------------------------------
  // runs of a suite

  /** The events of one `_exec_test` and its outcome. */
  datatype Run = Run(events: seq<Event>, outcome: Outcome<bool>)

  /** The runs' events, each completed run followed by `end_test`. */
  function Joined(runs: seq<Run>): seq<Event> {
    if runs == [] then []
    else
      var last := runs[|runs| - 1];
      Joined(runs[..|runs| - 1]) + last.events + (if last.outcome.Returned? then [EndTest] else [])
  }

  /** The number of runs whose check failed. */
  function Failures(runs: seq<Run>): nat {
    if runs == [] then 0
    else Failures(runs[..|runs| - 1]) + (if runs[|runs| - 1].outcome == Returned(false) then 1 else 0)
  }

  lemma {:induction false} FailuresBound(runs: seq<Run>)
    ensures Failures(runs) <= |runs|
    ensures Failures(runs) == 0 <==> forall k :: 0 <= k < |runs| ==> runs[k].outcome != Returned(false)
    decreases |runs|
  {
    if runs != [] {
      var init := runs[..|runs| - 1];
      FailuresBound(init);
      assert forall k :: 0 <= k < |init| ==> init[k] == runs[k];
    }
  }

  lemma RunsSnoc(runs: seq<Run>, run: Run)
    ensures Joined(runs + [run]) == Joined(runs) + run.events + (if run.outcome.Returned? then [EndTest] else [])
    ensures Failures(runs + [run]) == Failures(runs) + (if run.outcome == Returned(false) then 1 else 0)
  {
    SnocSlices(runs, run);
  }

  /** Each run is a `TestRun` of the case at its index. */
  ghost predicate SuiteRuns(exec: ExecFn, roundEq: RoundCheck, cases: seq<TestCase>, args: seq<string>,
                            timeout: Option<real>, limit: Option<nat>, runs: seq<Run>)
    reads cases
  {
    |runs| <= |cases| &&
    forall k :: 0 <= k < |runs| ==>
      TestRun(exec, roundEq, cases[k].description, cases[k].sections, cases[k].options, args, timeout, limit,
              runs[k].events, runs[k].outcome)
  }

  lemma SuiteRunsSnoc(exec: ExecFn, roundEq: RoundCheck, cases: seq<TestCase>, args: seq<string>,
                      timeout: Option<real>, limit: Option<nat>, runs: seq<Run>, run: Run)
    requires SuiteRuns(exec, roundEq, cases, args, timeout, limit, runs) && |runs| < |cases|
    requires TestRun(exec, roundEq, cases[|runs|].description, cases[|runs|].sections, cases[|runs|].options,
                     args, timeout, limit, run.events, run.outcome)
    ensures SuiteRuns(exec, roundEq, cases, args, timeout, limit, runs + [run])
  {
    SnocIndex(runs, run);
  }

  /** Each of the first `n` runs returned. */
  predicate Completed(runs: seq<Run>, n: nat) {
    forall k :: 0 <= k < n && k < |runs| ==> runs[k].outcome.Returned?
  }

  lemma CompletedSnoc(runs: seq<Run>, run: Run)
    ensures Completed(runs + [run], |runs| + 1) <==> Completed(runs, |runs|) && run.outcome.Returned?
    ensures Completed(runs + [run], |runs|) <==> Completed(runs, |runs|)
  {
    SnocIndex(runs, run);
  }

  lemma JoinedSnoc(pre: seq<Event>, runs: seq<Run>, run: Run)
    ensures pre + Joined(runs + [run]) == pre + Joined(runs) + run.events + (if run.outcome.Returned? then [EndTest] else [])
  {
    RunsSnoc(runs, run);
  }

  /** The checker: an executor, the fractional-token check, and the trace of formatter calls. */
  class Checker {
    const exec: ExecFn
    const roundEq: RoundCheck
    var events: seq<Event>

    constructor(exec: ExecFn, roundEq: RoundCheck)
      ensures this.exec == exec && this.roundEq == roundEq && events == []
    {
      this.exec := exec;
      this.roundEq := roundEq;
      events := [];
    }

    /** `_check_output`: compares each expected non-special section with the first answer carrying its tag. */
    method CheckOutput(c: TestCase, output: string) returns (success: bool, ghost added: seq<Event>)
      modifies this
      ensures events == old(events) + added
      ensures CheckTrace(Regular(c.sections), Parse(SplitLines(output)), c.options, roundEq, added, success)
    {
      var answers := ParseSections(SplitLines(output));
      var expected := c.SectionList(true);
      ghost var options := c.options;
      ghost var start := events;
      ghost var evs: seq<Event> := [];
      success := true;
      var i := 0;
      while i < |expected|
        invariant 0 <= i <= |expected|
        invariant |evs| == i && events == start + evs
        invariant CheckEvents(expected[..i], answers, options, roundEq, evs)
        invariant success <==> AllPerfect(evs)
      {
        var e := CheckSection(c, expected[i], answers, roundEq);
        ghost var previous := success;
        if e.ComparisonResult? {
          success := success && MaxDiff(e.diffs) == 0.0;
        } else {
          success := false;
        }
        assert success <==> previous && Perfect(e);
        CheckEventsSnoc(expected[..i], answers, options, roundEq, evs, expected[i], e);
        SnocSlice(expected, i);
        AppendAssoc(start, evs, [e]);
        events := events + [e];
        evs := evs + [e];
        i := i + 1;
      }
      assert expected[..i] == expected;
      added := evs;
    }

    /** `_exec_test`. */
    method ExecTest(c: TestCase, args: seq<string>, timeout: Option<real>, limit: Option<nat>)
      returns (r: Outcome<bool>, ghost run: seq<Event>)
      modifies this
      ensures events == old(events) + run
      ensures TestRun(exec, roundEq, c.description, c.sections, c.options, args, timeout, limit, run, r)
    {
      var input := InputText(c.sections);
      var tmpfile := FileText(c.sections);
      var words := args;
      var argSect := Lookup(c.sections, ArgsTag);
      if argSect.Some? {
        words := words + StripAll(argSect.value);
        if tmpfile.Some? && FileArg in words {
          ArgsFail(exec, roundEq, c.description, c.sections, c.options, args, timeout, limit);
          return Raised(NameError), [];
        }
      }
      var cmd := Words(words);
      assert BuildArgs(args, c.sections) == Returned(cmd);
      ghost var start := events;
      var begin := BeginTest(c.description, cmd, input, tmpfile);
      events := events + [begin];
      var res := exec(cmd, input, tmpfile, timeout, limit);
      if res.Raised? {
        ExecFails(exec, roundEq, c.description, c.sections, c.options, args, timeout, limit, cmd, res.error);
        return Raised(res.error), [begin];
      }
      var executed := ExecutionResult(cmd, res.value, c.SectionList(true));
      events := events + [executed];
      if res.value.result == ErOk {
        var passed, rest := CheckOutput(c, res.value.output);
        ExecOk(exec, roundEq, c.description, c.sections, c.options, args, timeout, limit, cmd, res.value, rest, passed);
        AppendPair(start, begin, executed, rest);
        r, run := Returned(passed), [begin, executed] + rest;
      } else {
        ExecNotOk(exec, roundEq, c.description, c.sections, c.options, args, timeout, limit, cmd, res.value);
        AppendPair(start, begin, executed, []);
        r, run := Returned(false), [begin, executed];
      }
    }

    /**
     * One pass of `exec_suite`'s loop over `cases[i]`: the case's run,
     * then `end_test` unless it raised; `runs` are the earlier passes and
     * `session` the trace before them.
     */
    method SuiteStep(cases: seq<TestCase>, args: seq<string>, timeout: Option<real>, limit: Option<nat>,
                     i: nat, ghost session: seq<Event>, ghost runs: seq<Run>)
      returns (ok: Outcome<bool>, ghost run: Run)
      requires i == |runs| < |cases|
      requires events == session + Joined(runs)
      requires SuiteRuns(exec, roundEq, cases, args, timeout, limit, runs)
      modifies this
      ensures run.outcome == ok
      ensures events == session + Joined(runs + [run])
      ensures SuiteRuns(exec, roundEq, cases, args, timeout, limit, runs + [run])
      ensures Completed(runs + [run], |runs| + 1) <==> Completed(runs, |runs|) && ok.Returned?
      ensures Completed(runs + [run], |runs|) <==> Completed(runs, |runs|)
      ensures Failures(runs + [run]) == Failures(runs) + (if ok == Returned(false) then 1 else 0)
    {
      ghost var evs;
      ok, evs := ExecTest(cases[i], args, timeout, limit);
      run := Run(evs, ok);
      if ok.Returned? {
        events := events + [EndTest];
      }
      assert events == session + Joined(runs + [run]) by { JoinedSnoc(session, runs, run); }
      RunsSnoc(runs, run);
      SuiteRunsSnoc(exec, roundEq, cases, args, timeout, limit, runs, run);
      CompletedSnoc(runs, run);
    }

    /**
     * `exec_suite`: `begin_session`, then each case's events followed by
     * `end_test`, and `end_session` last even when a case raises; returns
     * the number of failed cases. `runs` are the cases' runs, the last one
     * the run that raised, if any.
     */
    method ExecSuite(cases: seq<TestCase>, args: seq<string>, timeout: Option<real>, limit: Option<nat>)
      returns (r: Outcome<nat>, ghost runs: seq<Run>)
      modifies this
      ensures events == old(events) + [BeginSession] + Joined(runs) + [EndSession]
      ensures SuiteRuns(exec, roundEq, cases, args, timeout, limit, runs)
      ensures r.Returned? ==> |runs| == |cases| && Completed(runs, |runs|)
      ensures r.Returned? ==> r.value == Failures(runs) && r.value <= |cases|
      ensures r.Raised? ==> runs != [] && runs[|runs| - 1].outcome == Raised(r.error) && Completed(runs, |runs| - 1)
    {
      events := events + [BeginSession];
      ghost var session := events;
      var failures := 0;
      runs := [];
      var i := 0;
      var raised: Option<PyError> := None;
      while i < |cases| && raised.None?
        invariant 0 <= i <= |cases| && |runs| == i
        invariant events == session + Joined(runs)
        invariant SuiteRuns(exec, roundEq, cases, args, timeout, limit, runs)
        invariant raised.None? ==> Completed(runs, |runs|)
        invariant raised.Some? ==> runs != [] && runs[|runs| - 1].outcome == Raised(raised.value) &&
                                   Completed(runs, |runs| - 1)
        invariant failures == Failures(runs)
      {
        var ok, run := SuiteStep(cases, args, timeout, limit, i, session, runs);
        if ok.Raised? {
          raised := Some(ok.error);
        } else if !ok.value {
          failures := failures + 1;
        }
        runs := runs + [run];
        i := i + 1;
      }
      events := events + [EndSession];
      if raised.Some? {
        r := Raised(raised.value);
      } else {
        FailuresBound(runs);
        r := Returned(failures);
      }
    }

    /**
     * `exec_single_test`: `begin_session`, the case's events, then
     * `end_test` and `end_session` whatever happens; returns the verdict.
     */
    method ExecSingleTest(c: TestCase, args: seq<string>, timeout: Option<real>, limit: Option<nat>)
      returns (r: Outcome<bool>, ghost run: seq<Event>)
      modifies this
      ensures events == old(events) + [BeginSession] + run + [EndTest, EndSession]
      ensures TestRun(exec, roundEq, c.description, c.sections, c.options, args, timeout, limit, run, r)
    {
      events := events + [BeginSession];
      r, run := ExecTest(c, args, timeout, limit);
      events := events + [EndTest, EndSession];
    }
  }
}
