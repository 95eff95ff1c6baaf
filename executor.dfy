/**
 * Execution of the program under test (src/executor.py). Spawning the
 * process, the pipes and the temporary file are outside the model: what the
 * operating system reports is an input, a `RawOutcome`, produced by the
 * `Spawn` function the caller supplies. The model covers what the executor
 * does with it: the placeholder substitution, the classification of the
 * result and the output-limit truncation.
 */
module Executor {
  import opened Common
  import opened Text

  /** The execution results `ER_*`. */
  datatype ExecCode = ErOk | ErTimeout | ErOutputLimit | ErSegfault | ErError | ErNotFile

  /** A command-line argument: a string, or the placeholder `ARG_TMPFILE` for the temporary file name. */
  datatype Arg = Word(text: string) | TmpFile

  /** `ExecResult(result, status, output, stderr)`. */
  datatype ExecResult = ExecResult(result: ExecCode, status: int, output: string, stderr: string)

  /**
   * What the operating system reports: the process exited (or was killed)
   * with a return code after writing its two streams, `communicate` timed
   * out, the executable was not found, or spawning failed otherwise (such
   * as a permission error).
   */
  datatype RawOutcome =
    | Exited(code: int, out: string, err: string)
    | TimedOut
    | NotFound
    | SpawnFailed

  /** The process spawner: the command, the text sent to stdin and the timeout in seconds. */
  type Spawn = (seq<Arg>, string, Option<real>) -> RawOutcome

  /** SIGSEGV on POSIX systems; a process killed by signal n reports return code -n. */
  const SIGSEGV := 11

  // ---------------------------------------------------------------------
  // _replace_placeholder

  /** `_replace_placeholder`: every placeholder becomes the temporary file name. */
  function ReplacePlaceholder(args: seq<Arg>, name: string): (r: seq<Arg>)
    ensures |r| == |args|
    ensures forall i :: 0 <= i < |args| ==> r[i] == if args[i].TmpFile? then Word(name) else args[i]
  {
    if args == [] then [] else [if args[0].TmpFile? then Word(name) else args[0]] + ReplacePlaceholder(args[1..], name)
  }

  /** After the substitution no placeholder is left, and substituting again changes nothing. */
  lemma ReplacedAll(args: seq<Arg>, name: string, other: string)
    ensures TmpFile !in ReplacePlaceholder(args, name)
    ensures ReplacePlaceholder(ReplacePlaceholder(args, name), other) == ReplacePlaceholder(args, name)
  {
    var r := ReplacePlaceholder(args, name);
    assert forall i :: 0 <= i < |r| ==> r[i] != TmpFile;
  }

  // ---------------------------------------------------------------------
  // classification

  /** The result before the output limit: return code, signal, timeout or missing executable. */
  function Classify(raw: RawOutcome): (r: Outcome<ExecResult>)
  {
    match raw
    case Exited(code, out, err) =>
      var er := if code == 0 then ErOk else if code == -SIGSEGV then ErSegfault else ErError;
      Returned(ExecResult(er, code, out, err))
    case TimedOut => Returned(ExecResult(ErTimeout, 0, "", ""))
    case NotFound => Returned(ExecResult(ErNotFile, 0, "", ""))
    case SpawnFailed => Raised(OSError)
  }

  /**
   * An exited process is OK iff its code is 0 and a segmentation fault iff
   * its code is -SIGSEGV, any other code is an error; the status is the
   * return code and the streams are kept.
   */
  lemma ClassifyExited(code: int, out: string, err: string)
    ensures Classify(Exited(code, out, err)).Returned?
    ensures Classify(Exited(code, out, err)).value.status == code
    ensures Classify(Exited(code, out, err)).value.output == out
    ensures Classify(Exited(code, out, err)).value.stderr == err
    ensures Classify(Exited(code, out, err)).value.result == ErOk <==> code == 0
    ensures Classify(Exited(code, out, err)).value.result == ErSegfault <==> code == -SIGSEGV
    ensures Classify(Exited(code, out, err)).value.result == ErError <==> code != 0 && code != -SIGSEGV
  {}

  /**
   * A timeout and a missing executable report status 0 and no output at
   * all, partial output included; other spawn errors propagate.
   */
  lemma ClassifyFailures(raw: RawOutcome)
    requires !raw.Exited?
    ensures raw.SpawnFailed? <==> Classify(raw).Raised?
    ensures Classify(raw).Returned? ==>
      Classify(raw).value.status == 0 && Classify(raw).value.output == "" && Classify(raw).value.stderr == "" &&
      (Classify(raw).value.result == ErTimeout <==> raw.TimedOut?) &&
      (Classify(raw).value.result == ErNotFile <==> raw.NotFound?)
  {}

  // ---------------------------------------------------------------------
  // output limit

  /** Whether a stream has more lines than the limit allows. */
  predicate Exceeds(s: string, limit: nat) { |SplitLinesKeep(s)| > limit }

  /** `"".join(s.splitlines(True)[:limit])`: the first `limit` lines, terminators kept. */
  function FirstLines(s: string, limit: nat): string {
    var lines := SplitLinesKeep(s);
    Concat(lines[..Min(limit, |lines|)])
  }

  /** A stream cut to the limit when it exceeds it. */
  function LimitStream(s: string, limit: nat): string {
    if Exceeds(s, limit) then FirstLines(s, limit) else s
  }

  /**
   * The output limit applied to a result: each stream with more than
   * `limit` lines is cut on its own, and exceeding it on either stream
   * turns the result into ER_OUTPUT_LIMIT.
   */
  function ApplyLimit(res: ExecResult, limit: Option<nat>): (r: ExecResult)
  {
    match limit
    case None => res
    case Some(n) =>
      var er := if Exceeds(res.output, n) || Exceeds(res.stderr, n) then ErOutputLimit else res.result;
      ExecResult(er, res.status, LimitStream(res.output, n), LimitStream(res.stderr, n))
  }

  lemma {:induction false} LineLengthOfLine(l: string, rest: string)
    requires l != [] && '\n' !in l[..|l| - 1] && l[|l| - 1] == '\n'
    ensures LineLength(l + rest) == |l|
  {
    var body := l[..|l| - 1];
    assert l == body + "\n";
    LineLengthOfTerminated(body, rest);
  }

  /** Rejoining the first `k` lines of a text and splitting them again gives those lines. */
  lemma {:induction false} FirstLinesResplit(s: string, k: nat)
    requires k < |SplitLinesKeep(s)|
    ensures SplitLinesKeep(Concat(SplitLinesKeep(s)[..k])) == SplitLinesKeep(s)[..k]
    decreases k
  {
    var lines := SplitLinesKeep(s);
    if k > 0 {
      var n := LineLength(s);
      var l := s[..n];
      var rest := SplitLinesKeep(s[n..]);
      assert lines == [l] + rest;
      assert n < |s| by {
        assert rest != [];
      }
      FirstLinesResplit(s[n..], k - 1);
      var tail := Concat(rest[..k - 1]);
      assert Concat(lines[..k]) == l + tail by {
        assert lines[..k] == [l] + rest[..k - 1];
        ConcatCons(l, rest[..k - 1]);
      }
      LineLengthOfLine(l, tail);
      SplitLinesKeepCons(l, tail);
    }
  }

  lemma ConcatCons(x: string, xs: seq<string>)
    ensures Concat([x] + xs) == x + Concat(xs)
  {
    assert ([x] + xs)[1..] == xs;
  }

  /** A text that starts with a whole line splits into that line and the lines after it. */
  lemma SplitLinesKeepCons(l: string, tail: string)
    requires l != [] && LineLength(l + tail) == |l|
    ensures SplitLinesKeep(l + tail) == [l] + SplitLinesKeep(tail)
  {
    assert (l + tail)[..|l|] == l && (l + tail)[|l|..] == tail;
  }

  /**
   * A stream over the limit is cut to a prefix of itself holding exactly
   * `limit` lines; a stream within the limit is unchanged.
   */
  lemma LimitStreamShape(s: string, limit: nat)
    ensures LimitStream(s, limit) <= s
    ensures !Exceeds(s, limit) ==> LimitStream(s, limit) == s
    ensures Exceeds(s, limit) ==>
      SplitLinesKeep(LimitStream(s, limit)) == SplitLinesKeep(s)[..limit] &&
      |SplitLinesKeep(LimitStream(s, limit))| == limit
  {
    if Exceeds(s, limit) {
      ConcatPrefix(SplitLinesKeep(s), limit);
      FirstLinesResplit(s, limit);
    }
  }

  /**
   * The limit leaves the status alone; the result becomes ER_OUTPUT_LIMIT
   * iff a stream exceeds it, and is otherwise unchanged together with both
   * streams. Without a limit nothing changes.
   */
  lemma ApplyLimitShape(res: ExecResult, limit: Option<nat>)
    ensures ApplyLimit(res, limit).status == res.status
    ensures limit.None? ==> ApplyLimit(res, limit) == res
    ensures limit.Some? && (Exceeds(res.output, limit.value) || Exceeds(res.stderr, limit.value)) ==>
      ApplyLimit(res, limit).result == ErOutputLimit
    ensures limit.Some? && !Exceeds(res.output, limit.value) && !Exceeds(res.stderr, limit.value) ==>
      ApplyLimit(res, limit) == res
    ensures ApplyLimit(res, limit).output <= res.output && ApplyLimit(res, limit).stderr <= res.stderr
  {
    if limit.Some? {
      LimitStreamShape(res.output, limit.value);
      LimitStreamShape(res.stderr, limit.value);
    }
  }

  // ---------------------------------------------------------------------
  // exec_process

  /** The command actually spawned: the placeholder replaced only when there is a temporary file. */
  function Command(args: seq<Arg>, tmpfile: Option<string>, tmpname: string): seq<Arg> {
    if tmpfile.Some? then ReplacePlaceholder(args, tmpname) else args
  }

  /** What `exec_process` returns or raises. */
  function Execute(args: seq<Arg>, input: string, tmpfile: Option<string>, tmpname: string,
                   timeout: Option<real>, limit: Option<nat>, spawn: Spawn): Outcome<ExecResult>
  {
    match Classify(spawn(Command(args, tmpfile, tmpname), input, timeout))
    case Raised(e) => Raised(e)
    case Returned(res) => Returned(ApplyLimit(res, limit))
  }

  /**
   * `Executor.exec_process`: `tmpname` is the name the temporary file
   * holding `tmpfile` received, `spawn` runs the command.
   */
  method ExecProcess(args: seq<Arg>, input: string, tmpfile: Option<string>, tmpname: string,
                     timeout: Option<real>, limit: Option<nat>, spawn: Spawn)
    returns (r: Outcome<ExecResult>)
    ensures r == Execute(args, input, tmpfile, tmpname, timeout, limit, spawn)
  {
    var cmd := args;
    if tmpfile.Some? {
      cmd := ReplacePlaceholder(args, tmpname);
    }
    var er: ExecCode;
    var retCode := 0;
    var output := "";
    var error := "";
    match spawn(cmd, input, timeout) {
      case Exited(code, out, err) =>
        er := if code == 0 then ErOk else if code == -SIGSEGV then ErSegfault else ErError;
        retCode := code;
        output, error := out, err;
      case TimedOut =>
        er := ErTimeout;
      case NotFound =>
        er := ErNotFile;
      case SpawnFailed =>
        return Raised(OSError);
    }
    if limit.Some? {
      var lines := SplitLinesKeep(output);
      if |lines| > limit.value {
        output := Concat(lines[..limit.value]);
        er := ErOutputLimit;
      }
      lines := SplitLinesKeep(error);
      if |lines| > limit.value {
        error := Concat(lines[..limit.value]);
        er := ErOutputLimit;
      }
    }
    r := Returned(ExecResult(er, retCode, output, error));
  }

  /** A text made of terminated lines and cut to `k < |ls|` lines keeps the first `k` of them. */
  lemma LimitOfLines(ls: seq<string>, k: nat)
    requires forall i :: 0 <= i < |ls| ==> ls[i] != [] && '\n' !in ls[i][..|ls[i]| - 1] && ls[i][|ls[i]| - 1] == '\n'
    requires k < |ls|
    ensures Exceeds(Concat(ls), k) && LimitStream(Concat(ls), k) == Concat(ls[..k])
  {
    KeepLinesOf(ls);
  }

  /** Terminated lines without inner line breaks are split back into themselves. */
  lemma {:induction false} KeepLinesOf(ls: seq<string>)
    requires forall k :: 0 <= k < |ls| ==> ls[k] != [] && '\n' !in ls[k][..|ls[k]| - 1] && ls[k][|ls[k]| - 1] == '\n'
    ensures SplitLinesKeep(Concat(ls)) == ls
    decreases |ls|
  {
    if ls != [] {
      var l := ls[0];
      var tail := Concat(ls[1..]);
      KeepLinesOf(ls[1..]);
      LineLengthOfLine(l, tail);
      assert (l + tail)[..|l|] == l && (l + tail)[|l|..] == tail;
    }
  }
}
