/**
 * The calls the checker makes on its formatter, as values: the orchestrator
 * appends one event per call to a trace, and every formatter consumes them.
 */
module Events {
  import opened Common
  import opened TestData
  import opened Executor

  datatype Event =
    | BeginSession
    | EndSession
    /** `begin_test(description, args, input, tmpfile)`. */
    | BeginTest(description: Option<string>, args: seq<Arg>, input: string, tmpfile: Option<string>)
    /** `execution_result(args, result, test)`, `regular` being `test.sections(exclude_special=True)`. */
    | ExecutionResult(args: seq<Arg>, result: ExecResult, regular: seq<Section>)
    /** `execution_result(args, result)` of the older generation, which passes no test. */
    | PlainExecutionResult(args: seq<Arg>, result: ExecResult)
    /** `comparison_result(expected, got, diffs, matches)`. */
    | ComparisonResult(expected: Section, got: Section, diffs: seq<real>, matches: seq<Option<string>>)
    /** `missing_section(expected)`. */
    | MissingSection(expected: Section)
    | EndTest
}
