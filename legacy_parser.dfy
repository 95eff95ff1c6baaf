/**
 * The section parser of the older generation. It differs from the current
 * one in three ways: a header must start the line (after optional
 * whitespace) with '[' and its tag may not contain '-'; content lines are
 * stored verbatim; and the last pending section is always emitted, even
 * when its tag and content are empty.
 */
module LegacyParser {
  import opened Common
  import opened Text
  import opened TestData
  import opened Parser

  // ---------------------------------------------------------------------
  // header recogniser

  /** The tag of a header line: optional whitespace, then '[' and a bracketed tag without '-'. */
  function LegacyHeaderTag(line: string): (r: Option<string>)
    ensures r.Some? ==> r.value != []
  {
    var l := LStrip(line);
    if l != [] && l[0] == '[' then BracketTag(l[1..], false) else None
  }

  lemma {:induction false} TagCharsHyphen(t: string)
    requires TagChars(t, false)
    ensures TagChars(t, true) && '-' !in t
    decreases |t|
  {
    if t != [] {
      TagCharsHyphen(t[1..]);
      assert t == [t[0]] + t[1..];
    }
  }

  lemma NoBracketInSpace(sp: string)
    requires AllSpace(sp)
    ensures '[' !in sp
  {
    forall i | 0 <= i < |sp|
      ensures sp[i] != '['
    {
      assert IsSpace(sp[i]);
    }
  }

  lemma Regroup(a: string, b: string, c: string, d: string, e: string, f: string, g: string)
    ensures a + (b + (c + d + e + f + g)) == a + b + c + d + e + f + g
  {}

  lemma LegacyParts(line: string, t: string) returns (sp0: string, sp1: string, sp2: string, post: string)
    requires LegacyHeaderTag(line) == Some(t)
    ensures IsTag(t, false) && AllSpace(sp0) && AllSpace(sp1) && AllSpace(sp2)
    ensures line == sp0 + "[" + sp1 + t + sp2 + "]" + post
  {
    var l := LStrip(line);
    sp0 := line[..|line| - |l|];
    sp1, sp2, post := BracketParts(l[1..], t, false);
    assert l == "[" + l[1..];
    assert line == sp0 + l;
    Regroup(sp0, "[", sp1, t, sp2, "]", post);
  }

  lemma LegacyWitness(line: string, sp0: string, sp1: string, t: string, sp2: string, post: string)
    requires AllSpace(sp0) && AllSpace(sp1) && AllSpace(sp2) && line == sp0 + "[" + sp1 + t + sp2 + "]" + post
    ensures exists w, x, y, z :: AllSpace(w) && AllSpace(x) && AllSpace(y) && line == w + "[" + x + t + y + "]" + z
  {}

  /** A legacy header is whitespace, '[', whitespace, a tag without '-', whitespace and ']'. */
  lemma LegacyHeaderSound(line: string, t: string)
    requires LegacyHeaderTag(line) == Some(t)
    ensures IsTag(t, false) && '-' !in t
    ensures exists sp0, sp1, sp2, post ::
              AllSpace(sp0) && AllSpace(sp1) && AllSpace(sp2) && line == sp0 + "[" + sp1 + t + sp2 + "]" + post
  {
    var sp0, sp1, sp2, post := LegacyParts(line, t);
    TagCharsHyphen(t);
    LegacyWitness(line, sp0, sp1, t, sp2, post);
  }

  /** Every such line is a legacy header, whatever follows the ']'. */
  lemma LegacyHeaderOf(sp0: string, sp1: string, t: string, sp2: string, post: string)
    requires AllSpace(sp0) && AllSpace(sp1) && IsTag(t, false) && AllSpace(sp2)
    ensures LegacyHeaderTag(sp0 + "[" + sp1 + t + sp2 + "]" + post) == Some(t)
  {
    var rest := sp1 + t + sp2 + "]" + post;
    var line := sp0 + "[" + sp1 + t + sp2 + "]" + post;
    assert line == sp0 + ("[" + rest);
    LStripOf(sp0, "[" + rest);
    assert ("[" + rest)[1..] == rest;
    BracketTagOf(sp1, t, sp2, post, false);
  }

  /** The current header recogniser accepts every legacy header, with the same tag. */
  lemma LegacyHeaderIsHeader(line: string, t: string)
    requires LegacyHeaderTag(line) == Some(t)
    ensures HeaderTag(line) == Some(t)
  {
    var sp0, sp1, sp2, post := LegacyParts(line, t);
    TagCharsHyphen(t);
    NoBracketInSpace(sp0);
    HeaderOf(sp0, sp1, t, sp2, post);
  }

  lemma HyphenStops(x: string, tag: string)
    ensures TagRest("-" + x, tag, false) == None
  {
    assert ("-" + x)[0] == '-';
  }

  /** A tag with '-' is a header now but not in the legacy parser. */
  lemma HyphenatedTag()
    ensures HeaderTag("[a-b]") == Some("a-b")
    ensures LegacyHeaderTag("[a-b]") == None
  {
    HyphenTagNow();
    HyphenTagLegacy();
  }

  lemma HyphenTagLegacy()
    ensures LegacyHeaderTag("[a-b]") == None
  {
    assert LStrip("[a-b]") == "[a-b]" by {
      LStripOf("", "[a-b]");
      assert "" + "[a-b]" == "[a-b]";
    }
    assert LegacyHeaderTag("[a-b]") == BracketTag("a-b]", false) by {
      assert "[a-b]"[1..] == "a-b]";
    }
    assert BracketTag("a-b]", false) == TagRest("-b]", "a", false) by {
      assert "a-b]"[0] == 'a' && !IsSpace('a');
      assert "a-b]"[1..] == "-b]";
    }
    assert "-b]" == "-" + "b]";
    HyphenStops("b]", "a");
  }

  lemma HyphenTagNow()
    ensures HeaderTag("[a-b]") == Some("a-b")
  {
    assert IsTag("a-b", true);
    HeaderOf("", "", "a-b", "", "");
    assert "" + "[" + "" + "a-b" + "" + "]" + "" == "[a-b]";
  }

  /** Text before the '[' makes a header now but not in the legacy parser. */
  lemma PromptBeforeHeader()
    ensures HeaderTag("n: [A]") == Some("A")
    ensures LegacyHeaderTag("n: [A]") == None
  {
    assert '[' !in "n: ";
    HeaderOf("n: ", "", "A", "", "");
    assert "n: " + "[" + "" + "A" + "" + "]" + "" == "n: [A]";
    LStripOf("", "n: [A]");
    assert "" + "n: [A]" == "n: [A]";
  }

  // ---------------------------------------------------------------------
  // line scanner

  /** A line is ignored, or a legacy header, or content stored verbatim. */
  function LegacyClassify(line: string): (k: LineKind)
    ensures k.Ignored? <==> Skipped(line)
    ensures k.Header? <==> !Skipped(line) && LegacyHeaderTag(line).Some?
    ensures k.Header? ==> LegacyHeaderTag(line) == Some(k.tag) && k.tag != ""
    ensures k.Content? ==> k.text == line
  {
    if Skipped(line) then Ignored
    else match LegacyHeaderTag(line)
      case Some(t) => Header(t)
      case None => Content(line)
  }

  function LegacyKinds(lines: seq<string>): (r: seq<LineKind>)
    ensures |r| == |lines| && WellTagged(r) && ContentKept(r)
  {
    if lines == [] then [] else [LegacyClassify(lines[0])] + LegacyKinds(lines[1..])
  }

  lemma LegacyKindsAt(lines: seq<string>, i: nat)
    requires i < |lines|
    ensures LegacyKinds(lines[i..]) == [LegacyClassify(lines[i])] + LegacyKinds(lines[i + 1..])
  {
    assert lines[i..][0] == lines[i];
    assert lines[i..][1..] == lines[i + 1..];
  }

  /** As `Scan`, except that the final pending section is emitted unconditionally. */
  function LegacyScan(kinds: seq<LineKind>, tag: string, content: seq<string>): (r: seq<Section>)
    ensures r != []
    decreases |kinds|
  {
    if kinds == [] then [Section(tag, content)]
    else match kinds[0]
      case Ignored => LegacyScan(kinds[1..], tag, content)
      case Header(t) => Pending(tag, content) + LegacyScan(kinds[1..], t, [])
      case Content(l) => LegacyScan(kinds[1..], tag, content + [l])
  }

  /** `parse_sections(f)` of the older generation over the lines of `f`. */
  function LegacyParse(lines: seq<string>): seq<Section> { LegacyScan(LegacyKinds(lines), "", []) }

  lemma LegacyScanHead(k: LineKind, rest: seq<LineKind>, tag: string, content: seq<string>)
    ensures k.Ignored? ==> LegacyScan([k] + rest, tag, content) == LegacyScan(rest, tag, content)
    ensures k.Header? ==> LegacyScan([k] + rest, tag, content) == Pending(tag, content) + LegacyScan(rest, k.tag, [])
    ensures k.Content? ==> LegacyScan([k] + rest, tag, content) == LegacyScan(rest, tag, content + [k.text])
  {
    ConsSlices(k, rest);
  }

  /** The generator loop of the older `parse_sections`, collecting the sections it yields. */
  method LegacyParseSections(lines: seq<string>) returns (sections: seq<Section>)
    ensures sections == LegacyParse(lines)
  {
    sections := [];
    var tag := "";
    var content: seq<string> := [];
    var i := 0;
    while i < |lines|
      invariant 0 <= i <= |lines|
      invariant sections + LegacyScan(LegacyKinds(lines[i..]), tag, content) == LegacyParse(lines)
    {
      var line := lines[i];
      ghost var rest := LegacyKinds(lines[i + 1..]);
      LegacyKindsAt(lines, i);
      LegacyScanHead(LegacyClassify(line), rest, tag, content);
      var l := Strip(line);
      if l == [] || l[0] == '#' {
        // skip empty lines and comments
      } else {
        var m := LegacyHeaderTag(line);
        if m.Some? {
          AppendAssoc(sections, Pending(tag, content), LegacyScan(rest, m.value, []));
          if tag != "" || |content| > 0 {
            sections := sections + [Section(tag, content)];
          } else {
            AppendEmpty(sections);
          }
          tag := m.value;
          content := [];
        } else {
          content := content + [line];
        }
      }
      i := i + 1;
    }
    sections := sections + [Section(tag, content)];
  }

  // ---------------------------------------------------------------------
  // properties of the parse

  lemma {:induction false} LegacyContentsFrom(kinds: seq<LineKind>, tag: string, content: seq<string>)
    ensures Contents(LegacyScan(kinds, tag, content)) == content + Kept(kinds)
    decreases |kinds|
  {
    if kinds == [] {
      AppendEmpty(content);
    } else {
      match kinds[0]
      case Ignored =>
        LegacyContentsFrom(kinds[1..], tag, content);
      case Header(t) =>
        ContentsAppend(Pending(tag, content), LegacyScan(kinds[1..], t, []));
        LegacyContentsFrom(kinds[1..], t, []);
      case Content(l) =>
        LegacyContentsFrom(kinds[1..], tag, content + [l]);
    }
  }

  /** The texts of the content lines of a legacy parse, in order. */
  function LegacyKept(lines: seq<string>): (r: seq<string>)
  {
    if lines == [] then []
    else if LegacyClassify(lines[0]).Content? then [lines[0]] + LegacyKept(lines[1..])
    else LegacyKept(lines[1..])
  }

  lemma {:induction false} LegacyKeptLines(lines: seq<string>)
    ensures Kept(LegacyKinds(lines)) == LegacyKept(lines)
    decreases |lines|
  {
    if lines != [] {
      LegacyKeptLines(lines[1..]);
    }
  }

  /**
   * The sections' contents, concatenated, are the lines that are neither
   * skipped nor legacy headers, verbatim and in input order.
   */
  lemma LegacyParseContents(lines: seq<string>)
    ensures Contents(LegacyParse(lines)) == LegacyKept(lines)
    ensures forall k :: 0 <= k < |LegacyKept(lines)| ==> !Skipped(LegacyKept(lines)[k])
  {
    LegacyContentsFrom(LegacyKinds(lines), "", []);
    AppendEmpty(Kept(LegacyKinds(lines)));
    LegacyKeptLines(lines);
    KeptNotSkipped(LegacyKinds(lines));
  }

  lemma {:induction false} LegacyNoEmptyFrom(kinds: seq<LineKind>, tag: string, content: seq<string>)
    ensures forall k :: 0 <= k < |LegacyScan(kinds, tag, content)| - 1 ==>
              LegacyScan(kinds, tag, content)[k] != Section("", [])
    decreases |kinds|
  {
    if kinds != [] {
      match kinds[0]
      case Ignored =>
        LegacyNoEmptyFrom(kinds[1..], tag, content);
      case Header(t) =>
        LegacyNoEmptyFrom(kinds[1..], t, []);
      case Content(l) =>
        LegacyNoEmptyFrom(kinds[1..], tag, content + [l]);
    }
  }

  /**
   * At least one section always comes out, and only the last may be
   * `('', [])`; empty input gives exactly that section.
   */
  lemma LegacyParseSections_Shape(lines: seq<string>)
    ensures |LegacyParse(lines)| >= 1
    ensures forall k :: 0 <= k < |LegacyParse(lines)| - 1 ==> LegacyParse(lines)[k] != Section("", [])
    ensures LegacyParse([]) == [Section("", [])]
  {
    LegacyNoEmptyFrom(LegacyKinds(lines), "", []);
  }
}
