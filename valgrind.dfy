/**
 * The valgrind executor (pvcheck/valgrind.py): the program runs under
 * valgrind, and valgrind's own report lines (those starting with "==") are
 * taken out of the error stream; the few that signal a problem are
 * appended to the output under a synthetic `[VALGRIND]` section header.
 */
module Valgrind {
  import opened Common
  import opened Text
  import opened Executor

  /** The prefix valgrind puts on each of its lines. */
  const Marker := "=="
  /** What `_process_output` appends to the output before the kept lines. */
  const Header := "\n[VALGRIND]\n"
  const InUse := "in use at exit"
  const HeapUsage := "total heap usage"
  const ErrorSummary := "ERROR SUMMARY"

  /** Where a line of the error stream ends up. */
  datatype Fate = ToStderr | Kept | Dropped

  /** `int(line.split()[i].replace(',', ''))`. */
  function Field(line: string, i: nat): Outcome<int> {
    var f := Split(line);
    if i >= |f| then Raised(IndexError)
    else match ParseInt(ReplaceChar(f[i], ',', ""))
      case None => Raised(ValueError)
      case Some(n) => Returned(n)
  }

  /**
   * The fate of one line: a line without the marker stays in the error
   * stream; a marked line is checked against the three reports in this order and
   * kept only when its report signals a problem; any other marked line is
   * dropped.
   */
  function LineFate(line: string): Outcome<Fate> {
    if !StartsWith(line, Marker) then Returned(ToStderr)
    else if Contains(line, InUse) then
      match Field(line, 5)
      case Raised(e) => Raised(e)
      case Returned(bytes) => Returned(if bytes > 0 then Kept else Dropped)
    else if Contains(line, HeapUsage) then
      match Field(line, 4)
      case Raised(e) => Raised(e)
      case Returned(allocs) =>
        match Field(line, 6)
        case Raised(e) => Raised(e)
        case Returned(frees) => Returned(if allocs != frees then Kept else Dropped)
    else if Contains(line, ErrorSummary) then
      match Field(line, 3)
      case Raised(e) => Raised(e)
      case Returned(errs) => Returned(if errs > 0 then Kept else Dropped)
    else Returned(Dropped)
  }

  /** The lines of `ls` whose fate is `f`, in order. */
  function Select(ls: seq<string>, f: Fate): seq<string> {
    if ls == [] then []
    else Select(ls[..|ls| - 1], f) + (if LineFate(ls[|ls| - 1]) == Returned(f) then [ls[|ls| - 1]] else [])
  }

  /** The exception raised by the first line that raises, if any. */
  function FirstError(ls: seq<string>): Option<PyError> {
    if ls == [] then None
    else if FirstError(ls[..|ls| - 1]).Some? then FirstError(ls[..|ls| - 1])
    else if LineFate(ls[|ls| - 1]).Raised? then Some(LineFate(ls[|ls| - 1]).error)
    else None
  }

  /** What `_process_output` returns or raises: the new output and the new error stream. */
  function ProcessedOutput(stdout: string, stderr: string): Outcome<(string, string)> {
    var ls := SplitLinesKeep(stderr);
    match FirstError(ls)
    case Some(e) => Raised(e)
    case None => Returned((stdout + Header + Concat(Select(ls, Kept)), Concat(Select(ls, ToStderr))))
  }

  /** `ValgrindExecutor.exec_process`: the base executor on `["valgrind"] + args`, its streams then processed. */
  function ValgrindExecute(args: seq<Arg>, input: string, tmpfile: Option<string>, tmpname: string,
                           timeout: Option<real>, limit: Option<nat>, spawn: Spawn): Outcome<ExecResult>
  {
    match Execute([Word("valgrind")] + args, input, tmpfile, tmpname, timeout, limit, spawn)
    case Raised(e) => Raised(e)
    case Returned(res) =>
      match ProcessedOutput(res.output, res.stderr)
      case Raised(e) => Raised(e)
      case Returned(streams) => Returned(res.(output := streams.0, stderr := streams.1))
  }

  lemma SelectSnoc(ls: seq<string>, l: string, f: Fate)
    ensures Select(ls + [l], f) == Select(ls, f) + (if LineFate(l) == Returned(f) then [l] else [])
    ensures FirstError(ls + [l]) ==
      if FirstError(ls).Some? then FirstError(ls) else if LineFate(l).Raised? then Some(LineFate(l).error) else None
  {
    SnocSlices(ls, l);
  }

  /** Once a prefix raises, the whole sequence raises the same exception. */
  lemma {:induction false} FirstErrorPrefix(ls: seq<string>, i: nat)
    requires i <= |ls| && FirstError(ls[..i]).Some?
    ensures FirstError(ls) == FirstError(ls[..i])
    decreases |ls| - i
  {
    if i < |ls| {
      SnocSlice(ls, i);
      SelectSnoc(ls[..i], ls[i], Kept);
      FirstErrorPrefix(ls, i + 1);
    } else {
      assert ls[..i] == ls;
    }
  }

  /** The body of `_process_output`'s loop: where one line of the error stream goes. */
  method JudgeLine(line: string) returns (r: Outcome<Fate>)
    ensures r == LineFate(line)
  {
    if !StartsWith(line, Marker) {
      return Returned(ToStderr);
    }
    if Contains(line, InUse) {
      var f := Split(line);
      if |f| <= 5 {
        return Raised(IndexError);
      }
      var bytes := ParseInt(ReplaceChar(f[5], ',', ""));
      if bytes.None? {
        return Raised(ValueError);
      }
      r := Returned(if bytes.value > 0 then Kept else Dropped);
    } else if Contains(line, HeapUsage) {
      var f := Split(line);
      if |f| <= 4 {
        return Raised(IndexError);
      }
      var allocs := ParseInt(ReplaceChar(f[4], ',', ""));
      if allocs.None? {
        return Raised(ValueError);
      }
      if |f| <= 6 {
        return Raised(IndexError);
      }
      var frees := ParseInt(ReplaceChar(f[6], ',', ""));
      if frees.None? {
        return Raised(ValueError);
      }
      r := Returned(if allocs.value != frees.value then Kept else Dropped);
    } else if Contains(line, ErrorSummary) {
      var f := Split(line);
      if |f| <= 3 {
        return Raised(IndexError);
      }
      var errs := ParseInt(ReplaceChar(f[3], ',', ""));
      if errs.None? {
        return Raised(ValueError);
      }
      r := Returned(if errs.value > 0 then Kept else Dropped);
    } else {
      r := Returned(Dropped);
    }
  }

  /**
   * `_process_output`: walks the error stream line by line, sending
   * unmarked lines back to the error stream and collecting the marked lines
   * that report a problem; the first line that raises ends the walk.
   */
  method ProcessOutput(stdout: string, stderr: string) returns (r: Outcome<(string, string)>)
    ensures r == ProcessedOutput(stdout, stderr)
  {
    var extraout := [Header];
    var newerr: seq<string> := [];
    var lines := SplitLinesKeep(stderr);
    var i := 0;
    while i < |lines|
      invariant 0 <= i <= |lines|
      invariant FirstError(lines[..i]).None?
      invariant extraout == [Header] + Select(lines[..i], Kept)
      invariant newerr == Select(lines[..i], ToStderr)
    {
      var line := lines[i];
      SnocSlice(lines, i);
      SelectSnoc(lines[..i], line, Kept);
      SelectSnoc(lines[..i], line, ToStderr);
      var fate := JudgeLine(line);
      if fate.Raised? {
        FirstErrorPrefix(lines, i + 1);
        return Raised(fate.error);
      }
      if fate.value == ToStderr {
        newerr := newerr + [line];
      } else if fate.value == Kept {
        extraout := extraout + [line];
      }
      i := i + 1;
    }
    assert lines[..i] == lines;
    ConcatAppend([Header], Select(lines, Kept));
    assert Concat([Header]) == Header + Concat([]);
    AppendAssoc(stdout, Header, Concat(Select(lines, Kept)));
    r := Returned((stdout + Concat(extraout), Concat(newerr)));
  }

  /** `ValgrindExecutor.exec_process`. */
  method ValgrindExecProcess(args: seq<Arg>, input: string, tmpfile: Option<string>, tmpname: string,
                             timeout: Option<real>, limit: Option<nat>, spawn: Spawn)
    returns (r: Outcome<ExecResult>)
    ensures r == ValgrindExecute(args, input, tmpfile, tmpname, timeout, limit, spawn)
  {
    var res := ExecProcess([Word("valgrind")] + args, input, tmpfile, tmpname, timeout, limit, spawn);
    if res.Raised? {
      return Raised(res.error);
    }
    var streams := ProcessOutput(res.value.output, res.value.stderr);
    if streams.Raised? {
      return Raised(streams.error);
    }
    r := Returned(res.value.(output := streams.value.0, stderr := streams.value.1));
  }

  // ---------------------------------------------------------------------
  // properties

  /** The lines of `ls` without the marker, in order: an independent account of the new error stream. */
  function Unmarked(ls: seq<string>): (r: seq<string>)
    ensures forall l :: l in r ==> l in ls && !StartsWith(l, Marker)
  {
    if ls == [] then []
    else Unmarked(ls[..|ls| - 1]) + (if StartsWith(ls[|ls| - 1], Marker) then [] else [ls[|ls| - 1]])
  }

  /** The new error stream is exactly the unmarked lines, in order, terminators kept. */
  lemma {:induction false} ToStderrIsUnmarked(ls: seq<string>)
    ensures Select(ls, ToStderr) == Unmarked(ls)
    decreases |ls|
  {
    if ls != [] {
      ToStderrIsUnmarked(ls[..|ls| - 1]);
    }
  }

  /** Every kept line is a marked line of the stream. */
  lemma {:induction false} KeptAreMarked(ls: seq<string>)
    ensures forall l :: l in Select(ls, Kept) ==> l in ls && StartsWith(l, Marker)
    decreases |ls|
  {
    if ls != [] {
      var init := ls[..|ls| - 1];
      KeptAreMarked(init);
      assert forall l :: l in init ==> l in ls;
    }
  }

  /**
   * The processed output is the original output, the section header, then
   * the kept lines in order, each a marked line of the error stream; the
   * processed error stream is the original one with valgrind's lines taken out.
   */
  lemma ProcessedShape(stdout: string, stderr: string)
    ensures ProcessedOutput(stdout, stderr).Returned? ==>
      var out := ProcessedOutput(stdout, stderr).value.0;
      |out| >= |stdout| + |Header| && out[..|stdout|] == stdout && out[|stdout|..|stdout| + |Header|] == Header &&
      out[|stdout| + |Header|..] == Concat(Select(SplitLinesKeep(stderr), Kept))
    ensures forall l :: l in Select(SplitLinesKeep(stderr), Kept) ==> l in SplitLinesKeep(stderr) && StartsWith(l, Marker)
    ensures ProcessedOutput(stdout, stderr).Returned? ==>
      ProcessedOutput(stdout, stderr).value.1 == Concat(Unmarked(SplitLinesKeep(stderr)))
  {
    ToStderrIsUnmarked(SplitLinesKeep(stderr));
    KeptAreMarked(SplitLinesKeep(stderr));
  }

  /** Without valgrind lines the error stream is untouched and the section under the header is empty. */
  lemma {:induction false} NoReportsUntouched(ls: seq<string>)
    requires forall k :: 0 <= k < |ls| ==> !StartsWith(ls[k], Marker)
    ensures FirstError(ls).None? && Select(ls, Kept) == [] && Select(ls, ToStderr) == ls
    decreases |ls|
  {
    if ls != [] {
      var init := ls[..|ls| - 1];
      NoReportsUntouched(init);
      LastSplit(ls);
    }
  }

  lemma QuietRun(stdout: string, stderr: string)
    requires forall l :: l in SplitLinesKeep(stderr) ==> !StartsWith(l, Marker)
    ensures ProcessedOutput(stdout, stderr) == Returned((stdout + Header, stderr))
  {
    var ls := SplitLinesKeep(stderr);
    assert forall k :: 0 <= k < |ls| ==> ls[k] in ls;
    NoReportsUntouched(ls);
    assert Concat([]) == "";
    assert stdout + Header + "" == stdout + Header;
  }

  /**
   * The three reports are tried in order: a marked line mentioning the
   * memory still in use is judged by its sixth field alone, whatever else
   * it mentions.
   */
  lemma InUseFirst(line: string)
    requires StartsWith(line, Marker) && Contains(line, InUse)
    ensures LineFate(line).Returned? <==> Field(line, 5).Returned?
    ensures LineFate(line) == Returned(Kept) <==> Field(line, 5).Returned? && Field(line, 5).value > 0
  {}

  /** A heap summary is kept exactly when allocations and frees differ. */
  lemma HeapUsageRule(line: string)
    requires StartsWith(line, Marker) && !Contains(line, InUse) && Contains(line, HeapUsage)
    ensures LineFate(line) == Returned(Kept) <==>
      Field(line, 4).Returned? && Field(line, 6).Returned? && Field(line, 4).value != Field(line, 6).value
  {}

  /** An error summary is kept exactly when it counts at least one error. */
  lemma ErrorSummaryRule(line: string)
    requires StartsWith(line, Marker) && !Contains(line, InUse) && !Contains(line, HeapUsage) && Contains(line, ErrorSummary)
    ensures LineFate(line) == Returned(Kept) <==> Field(line, 3).Returned? && Field(line, 3).value > 0
  {}

  /** The run is the base executor's on `["valgrind"] + args`; its result code and status pass through. */
  lemma ValgrindPassThrough(args: seq<Arg>, input: string, tmpfile: Option<string>, tmpname: string,
                            timeout: Option<real>, limit: Option<nat>, spawn: Spawn)
    ensures ValgrindExecute(args, input, tmpfile, tmpname, timeout, limit, spawn).Returned? ==>
      var base := Execute([Word("valgrind")] + args, input, tmpfile, tmpname, timeout, limit, spawn);
      base.Returned? &&
      ValgrindExecute(args, input, tmpfile, tmpname, timeout, limit, spawn).value.result == base.value.result &&
      ValgrindExecute(args, input, tmpfile, tmpname, timeout, limit, spawn).value.status == base.value.status
    ensures Execute([Word("valgrind")] + args, input, tmpfile, tmpname, timeout, limit, spawn).Raised? ==>
      ValgrindExecute(args, input, tmpfile, tmpname, timeout, limit, spawn) ==
      Execute([Word("valgrind")] + args, input, tmpfile, tmpname, timeout, limit, spawn)
  {}
}
