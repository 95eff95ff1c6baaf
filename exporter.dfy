/**
 * Exporting a test's input (pvcheck/exporter.py; src/exporter.py holds the
 * same code, but calls `find_section_content`, which only the newer test
 * case defines): the `.INPUT` and `.FILE` texts of a test are written,
 * in that order, to a file named after the test, and the process exits with
 * status 0; a test with neither section prints an error naming it and exits
 * with status 1. Writing the file, printing and exiting are described by the
 * value `Export` returns.
 */
module Exporter {
  import opened Common
  import opened Text
  import opened TestData

  const InputTag := ".INPUT"
  const FileTag := ".FILE"

  /** `_file_name_builder`: the description plus ".dat", spaces made '_'; "NoName.dat" when there is none. */
  function FileName(description: Option<string>): (r: string)
    ensures description.None? ==> r == "NoName.dat"
    ensures description.Some? ==>
      var d := description.value;
      |r| == |d| + 4 && r[|d|..] == ".dat"
      && forall i :: 0 <= i < |d| ==> r[i] == if d[i] == ' ' then '_' else d[i]
    ensures ' ' !in r
  {
    match description
    case None => "NoName" + ".dat"
    case Some(d) =>
      var r := ReplaceChar(d + ".dat", ' ', "_");
      assert forall i :: |d| <= i < |d| + 4 ==> (d + ".dat")[i] == ".dat"[i - |d|];
      r
  }

  /** `find_section_content(tag, None)`: the section's text, or nothing when the tag is absent. */
  function SectionData(test: TestCase, tag: string): (r: Option<string>)
    reads test
    ensures r.None? <==> tag !in Tags(test.sections)
    ensures r.Some? ==> r.value == Terminated(Prior(test.sections, tag))
  {
    match test.FindSection(tag)
    case None => None
    case Some(s) => Some(SectionText(s))
  }

  /** `_get_data`: the `.INPUT` text and the `.FILE` text, each absent when its section is. */
  function GetData(test: TestCase): (r: (Option<string>, Option<string>))
    reads test
    ensures r.0.None? <==> InputTag !in Tags(test.sections)
    ensures r.1.None? <==> FileTag !in Tags(test.sections)
  {
    (SectionData(test, InputTag), SectionData(test, FileTag))
  }

  /** `_write_data`: what the file receives, the input first and then the file text. */
  function Written(input: Option<string>, file: Option<string>): (r: string)
    ensures |r| == (if input.Some? then |input.value| else 0) + (if file.Some? then |file.value| else 0)
    ensures input.Some? ==> input.value <= r
    ensures file.Some? ==> r[|r| - |file.value|..] == file.value
  {
    (if input.Some? then input.value else "") + (if file.Some? then file.value else "")
  }

  /** `_print_error_message`: the test number counted from 1. */
  function ErrorText(index: int): string {
    "Error: Can't export test number " + IntToString(index + 1) + "."
  }

  /**
   * What `export` does: the file it writes (name and text), what it prints,
   * and the status it exits with.
   */
  datatype Effects = Effects(file: Option<(string, string)>, printed: string, code: int)

  /** `export(test, test_index)`. */
  function Export(test: TestCase, index: int): (r: Effects)
    reads test
    ensures r.code == 0 || r.code == 1
    ensures r.code == 0 <==> InputTag in Tags(test.sections) || FileTag in Tags(test.sections)
    ensures r.code == 0 ==> r.printed == "" && r.file.Some? && r.file.value.0 == FileName(test.description)
    ensures r.code == 1 ==> r.file.None? && r.printed == "\n" + ErrorText(index) + "\n"
  {
    var (input, file) := GetData(test);
    if input.Some? || file.Some? then Effects(Some((FileName(test.description), Written(input, file))), "", 0)
    else Effects(None, "\n" + ErrorText(index) + "\n", 1)
  }

  /**
   * The exported file splits back into the two sections: it starts with the
   * `.INPUT` text (empty without one) and the rest is the `.FILE` text
   * (empty without one).
   */
  lemma ExportedSections(test: TestCase, index: int)
    requires Export(test, index).code == 0
    ensures var text := Export(test, index).file.value.1;
      var input := if InputTag in Tags(test.sections) then Terminated(Prior(test.sections, InputTag)) else "";
      var file := if FileTag in Tags(test.sections) then Terminated(Prior(test.sections, FileTag)) else "";
      text == input + file && text[..|input|] == input && text[|input|..] == file
  {
    var text := Export(test, index).file.value.1;
    var input := if InputTag in Tags(test.sections) then Terminated(Prior(test.sections, InputTag)) else "";
    var file := if FileTag in Tags(test.sections) then Terminated(Prior(test.sections, FileTag)) else "";
    assert text == input + file;
  }

  /** Two descriptions that differ only in spaces and underscores share a file name. */
  lemma FileNameCollides(a: string, b: string)
    requires |a| == |b|
    requires forall i :: 0 <= i < |a| ==> a[i] == b[i] || (a[i] in " _" && b[i] in " _")
    ensures FileName(Some(a)) == FileName(Some(b))
  {
    var x, y := FileName(Some(a)), FileName(Some(b));
    assert |x| == |y|;
    forall i | 0 <= i < |x|
      ensures x[i] == y[i]
    {
      if i >= |a| {
        assert x[i] == x[|a|..][i - |a|] && y[i] == y[|b|..][i - |b|];
      }
    }
  }
}
