/**
 * The older checker's main loop (src/pvcheck.py): the same steps as the
 * current one, but `_exec_test` returns nothing, the execution result is
 * reported without the test case, no `end_test` is sent, and there is no
 * output limit. Exceptions from the executor end the session.
 */
module LegacyPvCheck {
  import opened Common
  import opened Text
  import opened TestData
  import opened LegacyParser
  import opened Match
  import opened Executor
  import opened Events
  import opened PvCheck

  /**
   * The events of one older `_exec_test` and the exception it lets
   * through, if any: `begin_test` with the command line (where `.FILE`
   * arguments become the placeholder when the test has a `.FILE` section),
   * then, unless the executor raises, `execution_result` and, only for
   * ER_OK, one event per expected non-special section.
   */
  ghost predicate LegacyTestRun(exec: ExecFn, roundEq: RoundCheck, description: Option<string>, secs: seq<Section>,
                                options: map<string, set<string>>, args: seq<string>, timeout: Option<real>,
                                evs: seq<Event>, err: Option<PyError>)
  {
    LegacyLaunch(exec, roundEq, description, IntendedArgs(args, secs), InputText(secs), FileText(secs),
                 secs, options, timeout, evs, err)
  }

  /** `LegacyTestRun` once the command line, the input and the file text are known. */
  ghost predicate LegacyLaunch(exec: ExecFn, roundEq: RoundCheck, description: Option<string>, cmd: seq<Arg>,
                               input: string, file: Option<string>, secs: seq<Section>,
                               options: map<string, set<string>>, timeout: Option<real>,
                               evs: seq<Event>, err: Option<PyError>)
  {
    var begin := BeginTest(description, cmd, input, file);
    match exec(cmd, input, file, timeout, None)
    case Raised(e) => evs == [begin] && err == Some(e)
    case Returned(res) =>
      err.None? && |evs| >= 2 && evs[0] == begin && evs[1] == PlainExecutionResult(cmd, res) &&
      if res.result == ErOk then
        CheckEvents(Regular(secs), LegacyParse(SplitLines(res.output)), options, roundEq, evs[2..])
      else |evs| == 2
  }

  lemma LegacyExecFails(exec: ExecFn, roundEq: RoundCheck, description: Option<string>, cmd: seq<Arg>,
                        input: string, file: Option<string>, secs: seq<Section>,
                        options: map<string, set<string>>, timeout: Option<real>, e: PyError)
    requires exec(cmd, input, file, timeout, None) == Raised(e)
    ensures LegacyLaunch(exec, roundEq, description, cmd, input, file, secs, options, timeout,
                         [BeginTest(description, cmd, input, file)], Some(e))
  {}

  lemma LegacyExecNotOk(exec: ExecFn, roundEq: RoundCheck, description: Option<string>, cmd: seq<Arg>,
                        input: string, file: Option<string>, secs: seq<Section>,
                        options: map<string, set<string>>, timeout: Option<real>, res: ExecResult)
    requires exec(cmd, input, file, timeout, None) == Returned(res)
    requires res.result != ErOk
    ensures LegacyLaunch(exec, roundEq, description, cmd, input, file, secs, options, timeout,
                         [BeginTest(description, cmd, input, file), PlainExecutionResult(cmd, res)], None)
  {}

  lemma LegacyExecOk(exec: ExecFn, roundEq: RoundCheck, description: Option<string>, cmd: seq<Arg>,
                     input: string, file: Option<string>, secs: seq<Section>,
                     options: map<string, set<string>>, timeout: Option<real>, res: ExecResult, rest: seq<Event>)
    requires exec(cmd, input, file, timeout, None) == Returned(res)
    requires res.result == ErOk
    requires CheckEvents(Regular(secs), LegacyParse(SplitLines(res.output)), options, roundEq, rest)
    ensures LegacyLaunch(exec, roundEq, description, cmd, input, file, secs, options, timeout,
                         [BeginTest(description, cmd, input, file), PlainExecutionResult(cmd, res)] + rest, None)
  {
    var evs := [BeginTest(description, cmd, input, file), PlainExecutionResult(cmd, res)] + rest;
    assert evs[2..] == rest;
  }

  /**
   * The older generation reports a comparison or a missing section only
   * after ER_OK, one per expected non-special section, a missing one
   * exactly for the tags the output lacks; and no run lets an exception
   * through unless the executor raised.
   */
  lemma LegacyReportedSections(exec: ExecFn, roundEq: RoundCheck, description: Option<string>, secs: seq<Section>,
                               options: map<string, set<string>>, args: seq<string>, timeout: Option<real>,
                               evs: seq<Event>)
    requires LegacyTestRun(exec, roundEq, description, secs, options, args, timeout, evs, None)
    ensures |evs| >= 2 && evs[1].PlainExecutionResult?
    ensures evs[1].result.result != ErOk ==> |evs| == 2
    ensures evs[1].result.result == ErOk ==>
      |evs| == 2 + |Regular(secs)| &&
      forall k :: 0 <= k < |Regular(secs)| ==>
        (evs[k + 2].MissingSection? <==> Regular(secs)[k].tag !in Tags(LegacyParse(SplitLines(evs[1].result.output))))
  {
    var res := exec(IntendedArgs(args, secs), InputText(secs), FileText(secs), timeout, None).value;
    if res.result == ErOk {
      var answers := LegacyParse(SplitLines(res.output));
      forall k | 0 <= k < |Regular(secs)|
        ensures evs[k + 2].MissingSection? <==> Regular(secs)[k].tag !in Tags(answers)
      {
        assert evs[2..][k] == evs[k + 2];
        FindTags(answers, Regular(secs)[k].tag);
      }
    }
  }

  /** The events of one older `_exec_test` and the exception it let through. */
  datatype LegacyRun = LegacyRun(events: seq<Event>, error: Option<PyError>)

  function LegacyJoined(runs: seq<LegacyRun>): seq<Event> {
    if runs == [] then [] else LegacyJoined(runs[..|runs| - 1]) + runs[|runs| - 1].events
  }

  /** Each run is a `LegacyTestRun` of the case at its index. */
  ghost predicate LegacySuiteRuns(exec: ExecFn, roundEq: RoundCheck, cases: seq<TestCase>, args: seq<string>,
                                  timeout: Option<real>, runs: seq<LegacyRun>)
    reads cases
  {
    |runs| <= |cases| &&
    forall k :: 0 <= k < |runs| ==>
      LegacyTestRun(exec, roundEq, cases[k].description, cases[k].sections, cases[k].options, args, timeout,
                    runs[k].events, runs[k].error)
  }

  /** None of the first `n` runs raised. */
  predicate Quiet(runs: seq<LegacyRun>, n: nat) {
    forall k :: 0 <= k < n && k < |runs| ==> runs[k].error.None?
  }

  lemma LegacySuiteRunsSnoc(exec: ExecFn, roundEq: RoundCheck, cases: seq<TestCase>, args: seq<string>,
                            timeout: Option<real>, runs: seq<LegacyRun>, run: LegacyRun)
    requires LegacySuiteRuns(exec, roundEq, cases, args, timeout, runs) && |runs| < |cases|
    requires LegacyTestRun(exec, roundEq, cases[|runs|].description, cases[|runs|].sections, cases[|runs|].options,
                           args, timeout, run.events, run.error)
    ensures LegacySuiteRuns(exec, roundEq, cases, args, timeout, runs + [run])
  {
    SnocIndex(runs, run);
  }

  lemma LegacyJoinedSnoc(pre: seq<Event>, runs: seq<LegacyRun>, run: LegacyRun)
    ensures pre + LegacyJoined(runs + [run]) == pre + LegacyJoined(runs) + run.events
  {
    SnocSlices(runs, run);
  }

  lemma QuietSnoc(runs: seq<LegacyRun>, run: LegacyRun)
    ensures Quiet(runs + [run], |runs| + 1) <==> Quiet(runs, |runs|) && run.error.None?
    ensures Quiet(runs + [run], |runs|) <==> Quiet(runs, |runs|)
  {
    SnocIndex(runs, run);
  }

  /** The first half of `_exec_test`: the command line, the standard input and the temporary file's text. */
  method CommandLine(c: TestCase, args: seq<string>) returns (cmd: seq<Arg>, input: string, tmpfile: Option<string>)
    ensures cmd == IntendedArgs(args, c.sections) && input == InputText(c.sections) && tmpfile == FileText(c.sections)
  {
    input := c.FindSectionContent(InputTag, "");
    tmpfile := FileText(c.sections);
    var words := args;
    var argSect := c.FindSection(ArgsTag);
    if argSect.Some? {
      words := words + StripAll(argSect.value.content);
    }
    if argSect.Some? && tmpfile.Some? {
      cmd := FileArgs(words);
    } else {
      cmd := Words(words);
    }
  }

  /** The older checker: an executor, the fractional-token check, and the trace of formatter calls. */
  class LegacyChecker {
    const exec: ExecFn
    const roundEq: RoundCheck
    var events: seq<Event>

    constructor(exec: ExecFn, roundEq: RoundCheck)
      ensures this.exec == exec && this.roundEq == roundEq && events == []
    {
      this.exec := exec;
      this.roundEq := roundEq;
      events := [];
    }

    /** `_check_output`: one event per expected non-special section, nothing returned. */
    method CheckOutput(c: TestCase, output: string) returns (ghost added: seq<Event>)
      modifies this
      ensures events == old(events) + added
      ensures CheckEvents(Regular(c.sections), LegacyParse(SplitLines(output)), c.options, roundEq, added)
    {
      var answers := LegacyParseSections(SplitLines(output));
      var expected := c.SectionList(true);
      ghost var options := c.options;
      ghost var start := events;
      ghost var evs: seq<Event> := [];
      var i := 0;
      while i < |expected|
        invariant 0 <= i <= |expected|
        invariant |evs| == i && events == start + evs
        invariant CheckEvents(expected[..i], answers, options, roundEq, evs)
      {
        var e := CheckSection(c, expected[i], answers, roundEq);
        CheckEventsSnoc(expected[..i], answers, options, roundEq, evs, expected[i], e);
        SnocSlice(expected, i);
        AppendAssoc(start, evs, [e]);
        events := events + [e];
        evs := evs + [e];
        i := i + 1;
      }
      assert expected[..i] == expected;
      added := evs;
    }

    /** `_exec_test`: an exception from the executor comes back as `Some`. */
    method ExecTest(c: TestCase, args: seq<string>, timeout: Option<real>)
      returns (err: Option<PyError>, ghost run: seq<Event>)
      modifies this
      ensures events == old(events) + run
      ensures LegacyTestRun(exec, roundEq, c.description, c.sections, c.options, args, timeout, run, err)
    {
      var cmd, input, tmpfile := CommandLine(c, args);
      ghost var start := events;
      var begin := BeginTest(c.description, cmd, input, tmpfile);
      events := events + [begin];
      var res := exec(cmd, input, tmpfile, timeout, None);
      if res.Raised? {
        LegacyExecFails(exec, roundEq, c.description, cmd, input, tmpfile, c.sections, c.options, timeout, res.error);
        return Some(res.error), [begin];
      }
      var executed := PlainExecutionResult(cmd, res.value);
      events := events + [executed];
      if res.value.result == ErOk {
        ghost var rest := CheckOutput(c, res.value.output);
        LegacyExecOk(exec, roundEq, c.description, cmd, input, tmpfile, c.sections, c.options, timeout, res.value, rest);
        AppendPair(start, begin, executed, rest);
        run := [begin, executed] + rest;
      } else {
        LegacyExecNotOk(exec, roundEq, c.description, cmd, input, tmpfile, c.sections, c.options, timeout, res.value);
        AppendPair(start, begin, executed, []);
        run := [begin, executed];
      }
      err := None;
    }

    /**
     * One pass of `exec_suite`'s loop over `cases[i]`; `runs` are the
     * earlier passes and `session` the trace before them.
     */
    method SuiteStep(cases: seq<TestCase>, args: seq<string>, timeout: Option<real>,
                     i: nat, ghost session: seq<Event>, ghost runs: seq<LegacyRun>)
      returns (err: Option<PyError>, ghost run: LegacyRun)
      requires i == |runs| < |cases|
      requires events == session + LegacyJoined(runs)
      requires LegacySuiteRuns(exec, roundEq, cases, args, timeout, runs)
      modifies this
      ensures run.error == err
      ensures events == session + LegacyJoined(runs + [run])
      ensures LegacySuiteRuns(exec, roundEq, cases, args, timeout, runs + [run])
      ensures Quiet(runs + [run], |runs| + 1) <==> Quiet(runs, |runs|) && err.None?
      ensures Quiet(runs + [run], |runs|) <==> Quiet(runs, |runs|)
    {
      ghost var evs;
      err, evs := ExecTest(cases[i], args, timeout);
      run := LegacyRun(evs, err);
      assert events == session + LegacyJoined(runs + [run]) by { LegacyJoinedSnoc(session, runs, run); }
      LegacySuiteRunsSnoc(exec, roundEq, cases, args, timeout, runs, run);
      QuietSnoc(runs, run);
    }

    /**
     * `exec_suite`: `begin_session`, each case's events with no `end_test`
     * between them, and `end_session` last even when a case raises, whose
     * exception comes back as `Some`; `runs` are the cases' runs, the last
     * one the run that raised, if any.
     */
    method ExecSuite(cases: seq<TestCase>, args: seq<string>, timeout: Option<real>)
      returns (err: Option<PyError>, ghost runs: seq<LegacyRun>)
      modifies this
      ensures events == old(events) + [BeginSession] + LegacyJoined(runs) + [EndSession]
      ensures LegacySuiteRuns(exec, roundEq, cases, args, timeout, runs)
      ensures err.None? ==> |runs| == |cases| && Quiet(runs, |runs|)
      ensures err.Some? ==> runs != [] && runs[|runs| - 1].error == err && Quiet(runs, |runs| - 1)
    {
      events := events + [BeginSession];
      ghost var session := events;
      runs := [];
      err := None;
      var i := 0;
      while i < |cases| && err.None?
        invariant 0 <= i <= |cases| && |runs| == i
        invariant events == session + LegacyJoined(runs)
        invariant LegacySuiteRuns(exec, roundEq, cases, args, timeout, runs)
        invariant err.None? ==> Quiet(runs, |runs|)
        invariant err.Some? ==> runs != [] && runs[|runs| - 1].error == err && Quiet(runs, |runs| - 1)
      {
        ghost var run;
        err, run := SuiteStep(cases, args, timeout, i, session, runs);
        runs := runs + [run];
        i := i + 1;
      }
      events := events + [EndSession];
    }

    /**
     * `exec_single_test`: `begin_session`, the case's events and
     * `end_session`; the timeout it is given is not passed on, so the case
     * always runs without one.
     */
    method ExecSingleTest(c: TestCase, args: seq<string>, timeout: Option<real>)
      returns (err: Option<PyError>, ghost run: seq<Event>)
      modifies this
      ensures events == old(events) + [BeginSession] + run + [EndSession]
      ensures LegacyTestRun(exec, roundEq, c.description, c.sections, c.options, args, None, run, err)
    {
      events := events + [BeginSession];
      err, run := ExecTest(c, args, None);
      events := events + [EndSession];
    }
  }
}
