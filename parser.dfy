/**
 * The section parser of the current generation. A line is skipped when it is
 * blank or a comment; a header line is any text, then '[', optional
 * whitespace, a tag, optional whitespace and ']' (anything may follow); every
 * other line is content of the current section, stored right-stripped.
 * The header regular expression is replaced by a hand-written recogniser over
 * ASCII letters, digits and whitespace.
 */
module Parser {
  import opened Common
  import opened Text
  import opened TestData

  // ---------------------------------------------------------------------
  // header recogniser

  predicate IsLetter(c: char) { 'a' <= c <= 'z' || 'A' <= c <= 'Z' }

  /** A character that may start a tag; '-' only when `hyphen` is allowed. */
  predicate TagStart(c: char, hyphen: bool) {
    IsLetter(c) || c == '.' || c == '_' || (hyphen && c == '-')
  }

  /** A character that may continue a tag (a word character, '.', or '-' when allowed). */
  predicate TagChar(c: char, hyphen: bool) {
    TagStart(c, hyphen) || IsDigit(c)
  }

  predicate TagChars(t: string, hyphen: bool) {
    t == [] || (TagChar(t[0], hyphen) && TagChars(t[1..], hyphen))
  }

  /** A tag: a start character followed by tag characters. */
  predicate IsTag(t: string, hyphen: bool) {
    t != [] && TagStart(t[0], hyphen) && TagChars(t, hyphen)
  }

  /** `s` starts with optional whitespace and then ']'. */
  predicate Closes(s: string) {
    s != [] && (s[0] == ']' || (IsSpace(s[0]) && Closes(s[1..])))
  }

  /**
   * The rest of a tag already begun with `tag`: further tag characters, then
   * optional whitespace and ']'. The regular expression cannot backtrack into
   * a shorter tag, because a tag character is neither whitespace nor ']'.
   */
  function TagRest(s: string, tag: string, hyphen: bool): (r: Option<string>)
    ensures r.Some? ==> |r.value| >= |tag|
  {
    if s != [] && TagChar(s[0], hyphen) then TagRest(s[1..], tag + [s[0]], hyphen)
    else if Closes(s) then Some(tag)
    else None
  }

  /** The tag of `s` when `s` starts with optional whitespace, a tag, optional whitespace and ']'. */
  function BracketTag(s: string, hyphen: bool): (r: Option<string>)
    ensures r.Some? ==> r.value != []
  {
    if s != [] && IsSpace(s[0]) then BracketTag(s[1..], hyphen)
    else if s != [] && TagStart(s[0], hyphen) then TagRest(s[1..], [s[0]], hyphen)
    else None
  }

  /** The tag of a header line: the bracket after the line's first '['. */
  function HeaderTag(line: string): (r: Option<string>)
    ensures r.Some? ==> r.value != []
  {
    match IndexOf(line, '[')
    case None => None
    case Some(k) => BracketTag(line[k + 1..], true)
  }

  lemma {:induction false} ClosesOf(sp: string, post: string)
    requires AllSpace(sp)
    ensures Closes(sp + "]" + post)
    decreases |sp|
  {
    if sp == [] {
      assert (sp + "]" + post)[0] == ']';
    } else {
      assert (sp + "]" + post)[0] == sp[0];
      assert (sp + "]" + post)[1..] == sp[1..] + "]" + post;
      ClosesOf(sp[1..], post);
    }
  }

  lemma CloserNotTagChar(c: char, hyphen: bool)
    requires c == ']' || IsSpace(c)
    ensures !TagChar(c, hyphen)
  {}

  lemma {:induction false} TagRestOf(u: string, rest: string, tag: string, hyphen: bool)
    requires TagChars(u, hyphen) && Closes(rest)
    ensures TagRest(u + rest, tag, hyphen) == Some(tag + u)
    decreases |u|
  {
    if u == [] {
      assert u + rest == rest && tag + u == tag;
      CloserNotTagChar(rest[0], hyphen);
    } else {
      assert (u + rest)[0] == u[0];
      assert (u + rest)[1..] == u[1..] + rest;
      TagRestOf(u[1..], rest, tag + [u[0]], hyphen);
      assert tag + [u[0]] + u[1..] == tag + u;
    }
  }

  lemma {:induction false} BracketSkip(sp: string, x: string, hyphen: bool)
    requires AllSpace(sp)
    ensures BracketTag(sp + x, hyphen) == BracketTag(x, hyphen)
    decreases |sp|
  {
    if sp == [] {
      assert sp + x == x;
    } else {
      assert (sp + x)[0] == sp[0];
      assert (sp + x)[1..] == sp[1..] + x;
      BracketSkip(sp[1..], x, hyphen);
    }
  }

  /** Whitespace, a tag, whitespace and ']' are always recognised, whatever follows. */
  lemma BracketTagOf(sp1: string, t: string, sp2: string, post: string, hyphen: bool)
    requires AllSpace(sp1) && IsTag(t, hyphen) && AllSpace(sp2)
    ensures BracketTag(sp1 + t + sp2 + "]" + post, hyphen) == Some(t)
  {
    var rest := sp2 + "]" + post;
    assert sp1 + t + sp2 + "]" + post == sp1 + (t + rest);
    BracketSkip(sp1, t + rest, hyphen);
    ClosesOf(sp2, post);
    assert (t + rest)[0] == t[0];
    assert (t + rest)[1..] == t[1..] + rest;
    TagRestOf(t[1..], rest, [t[0]], hyphen);
    assert [t[0]] + t[1..] == t;
  }

  lemma {:induction false} ClosesParts(s: string) returns (sp: string, post: string)
    requires Closes(s)
    ensures AllSpace(sp) && s == sp + "]" + post
    decreases |s|
  {
    if s[0] == ']' {
      sp, post := "", s[1..];
    } else {
      var sp', post' := ClosesParts(s[1..]);
      sp, post := [s[0]] + sp', post';
    }
  }

  lemma {:induction false} TagRestParts(s: string, tag: string, t: string, hyphen: bool)
      returns (u: string, sp: string, post: string)
    requires TagRest(s, tag, hyphen) == Some(t)
    ensures TagChars(u, hyphen) && t == tag + u && AllSpace(sp) && s == u + sp + "]" + post
    decreases |s|
  {
    if s != [] && TagChar(s[0], hyphen) {
      var u', sp', post' := TagRestParts(s[1..], tag + [s[0]], t, hyphen);
      u, sp, post := [s[0]] + u', sp', post';
      assert u[1..] == u';
      assert s == [s[0]] + s[1..];
    } else {
      sp, post := ClosesParts(s);
      u := "";
    }
  }

  lemma {:induction false} BracketParts(s: string, t: string, hyphen: bool)
      returns (sp1: string, sp2: string, post: string)
    requires BracketTag(s, hyphen) == Some(t)
    ensures IsTag(t, hyphen) && AllSpace(sp1) && AllSpace(sp2) && s == sp1 + t + sp2 + "]" + post
    decreases |s|
  {
    if IsSpace(s[0]) {
      var sp1', sp2', post' := BracketParts(s[1..], t, hyphen);
      sp1, sp2, post := [s[0]] + sp1', sp2', post';
      assert s == [s[0]] + s[1..];
    } else {
      var u;
      u, sp2, post := TagRestParts(s[1..], [s[0]], t, hyphen);
      sp1 := "";
      assert t[1..] == u;
      assert s == [s[0]] + s[1..];
    }
  }

  lemma ShapeWitness(s: string, sp1: string, t: string, sp2: string, post: string)
    requires AllSpace(sp1) && AllSpace(sp2) && s == sp1 + t + sp2 + "]" + post
    ensures exists x, y, z :: AllSpace(x) && AllSpace(y) && s == x + t + y + "]" + z
  {}

  /** Every recognised bracket has the shape whitespace, tag, whitespace, ']'. */
  lemma BracketTagSound(s: string, t: string, hyphen: bool)
    requires BracketTag(s, hyphen) == Some(t)
    ensures IsTag(t, hyphen)
    ensures exists sp1, sp2, post :: AllSpace(sp1) && AllSpace(sp2) && s == sp1 + t + sp2 + "]" + post
  {
    var sp1, sp2, post := BracketParts(s, t, hyphen);
    ShapeWitness(s, sp1, t, sp2, post);
  }

  lemma {:induction false} IndexOfAfter(pre: string, rest: string)
    requires '[' !in pre
    ensures IndexOf(pre + "[" + rest, '[') == Some(|pre|)
    decreases |pre|
  {
    if pre != [] {
      assert (pre + "[" + rest)[0] == pre[0];
      assert (pre + "[" + rest)[1..] == pre[1..] + "[" + rest;
      IndexOfAfter(pre[1..], rest);
    } else {
      assert (pre + "[" + rest)[0] == '[';
    }
  }

  /** Any text free of '[' may precede the bracket of a header. */
  lemma HeaderOf(pre: string, sp1: string, t: string, sp2: string, post: string)
    requires '[' !in pre && AllSpace(sp1) && IsTag(t, true) && AllSpace(sp2)
    ensures HeaderTag(pre + "[" + sp1 + t + sp2 + "]" + post) == Some(t)
  {
    var rest := sp1 + t + sp2 + "]" + post;
    var line := pre + "[" + sp1 + t + sp2 + "]" + post;
    assert line == pre + "[" + rest;
    IndexOfAfter(pre, rest);
    assert line[|pre| + 1..] == rest;
    BracketTagOf(sp1, t, sp2, post, true);
  }

  lemma HeaderWitness(line: string, pre: string, sp1: string, t: string, sp2: string, post: string)
    requires '[' !in pre && AllSpace(sp1) && AllSpace(sp2) && line == pre + "[" + sp1 + t + sp2 + "]" + post
    ensures exists w, x, y, z :: '[' !in w && AllSpace(x) && AllSpace(y) && line == w + "[" + x + t + y + "]" + z
  {}

  /** A header is text free of '[', then '[', whitespace, the tag, whitespace and ']'. */
  lemma HeaderSound(line: string, t: string)
    requires HeaderTag(line) == Some(t)
    ensures IsTag(t, true)
    ensures exists pre, sp1, sp2, post ::
              '[' !in pre && AllSpace(sp1) && AllSpace(sp2) && line == pre + "[" + sp1 + t + sp2 + "]" + post
  {
    var k := IndexOf(line, '[').value;
    var sp1, sp2, post := BracketParts(line[k + 1..], t, true);
    assert line == line[..k] + [line[k]] + line[k + 1..];
    HeaderWitness(line, line[..k], sp1, t, sp2, post);
  }

  lemma KeptBracket(line: string)
    requires |line| >= 2 && line[0] == '[' && line[|line| - 1] == ']'
    ensures !Skipped(line)
  {
    StripUnchanged(line);
  }

  /** The simplest header, "[TAG]". */
  lemma HeaderLine(t: string)
    requires IsTag(t, true)
    ensures !Skipped("[" + t + "]") && HeaderTag("[" + t + "]") == Some(t)
  {
    var line := "[" + t + "]";
    assert line == "" + "[" + "" + t + "" + "]" + "";
    HeaderOf("", "", t, "", "");
    assert line[0] == '[' && line[|line| - 1] == ']';
    KeptBracket(line);
  }

  // ---------------------------------------------------------------------
  // line scanner

  /** Blank lines and comment lines (stripped text starting with '#') are skipped. */
  predicate Skipped(line: string) {
    var l := Strip(line);
    l == [] || l[0] == '#'
  }

  /** Right-stripping never turns a kept line into a skipped one or back. */
  lemma SkippedRStrip(line: string)
    ensures Skipped(RStrip(line)) == Skipped(line)
  {
    StripAfterRStrip(line);
  }

  /** What the scanner does with one line. */
  datatype LineKind = Ignored | Header(tag: string) | Content(text: string)

  /** A line is ignored, or a header, or content stored right-stripped. */
  function Classify(line: string): (k: LineKind)
    ensures k.Ignored? <==> Skipped(line)
    ensures k.Header? <==> !Skipped(line) && HeaderTag(line).Some?
    ensures k.Header? ==> HeaderTag(line) == Some(k.tag) && k.tag != ""
    ensures k.Content? ==> k.text == RStrip(line) && !Skipped(k.text)
  {
    if Skipped(line) then Ignored
    else match HeaderTag(line)
      case Some(t) => Header(t)
      case None =>
        SkippedRStrip(line);
        Content(RStrip(line))
  }

  /** Header kinds carry non-empty tags. */
  predicate WellTagged(kinds: seq<LineKind>) {
    forall k :: 0 <= k < |kinds| && kinds[k].Header? ==> kinds[k].tag != ""
  }

  /** Content kinds carry texts that are not skipped lines. */
  predicate ContentKept(kinds: seq<LineKind>) {
    forall k :: 0 <= k < |kinds| && kinds[k].Content? ==> !Skipped(kinds[k].text)
  }

  /** The classification of each line, in order. */
  function Kinds(lines: seq<string>): (r: seq<LineKind>)
    ensures |r| == |lines| && WellTagged(r) && ContentKept(r)
  {
    if lines == [] then [] else [Classify(lines[0])] + Kinds(lines[1..])
  }

  lemma KindsAt(lines: seq<string>, i: nat)
    requires i < |lines|
    ensures Kinds(lines[i..]) == [Classify(lines[i])] + Kinds(lines[i + 1..])
  {
    assert lines[i..][0] == lines[i];
    assert lines[i..][1..] == lines[i + 1..];
  }

  /** The pending section, emitted only when its tag or its content is non-empty. */
  function Pending(tag: string, content: seq<string>): (r: seq<Section>)
    ensures |r| <= 1
    ensures r == [] <==> tag == "" && content == []
  {
    if tag != "" || content != [] then [Section(tag, content)] else []
  }

  /** Sections produced from the remaining classified lines while `tag` and `content` are pending. */
  function Scan(kinds: seq<LineKind>, tag: string, content: seq<string>): seq<Section>
    decreases |kinds|
  {
    if kinds == [] then Pending(tag, content)
    else match kinds[0]
      case Ignored => Scan(kinds[1..], tag, content)
      case Header(t) => Pending(tag, content) + Scan(kinds[1..], t, [])
      case Content(l) => Scan(kinds[1..], tag, content + [l])
  }

  /** `parse_sections(f)` over the lines of `f`. */
  function Parse(lines: seq<string>): seq<Section> { Scan(Kinds(lines), "", []) }

  /** The generator loop of `parse_sections`, collecting the sections it yields. */
  method ParseSections(lines: seq<string>) returns (sections: seq<Section>)
    ensures sections == Parse(lines)
  {
    sections := [];
    var tag := "";
    var content: seq<string> := [];
    var i := 0;
    while i < |lines|
      invariant 0 <= i <= |lines|
      invariant sections + Scan(Kinds(lines[i..]), tag, content) == Parse(lines)
    {
      var line := lines[i];
      ghost var rest := Kinds(lines[i + 1..]);
      KindsAt(lines, i);
      ScanHead(Classify(line), rest, tag, content);
      var l := Strip(line);
      if l == [] || l[0] == '#' {
        // skip empty lines and comments
      } else {
        var m := HeaderTag(line);
        if m.Some? {
          AppendAssoc(sections, Pending(tag, content), Scan(rest, m.value, []));
          if tag != "" || |content| > 0 {
            sections := sections + [Section(tag, content)];
          } else {
            AppendEmpty(sections);
          }
          tag := m.value;
          content := [];
        } else {
          content := content + [RStrip(line)];
        }
      }
      i := i + 1;
    }
    if tag != "" || |content| > 0 {
      sections := sections + [Section(tag, content)];
    } else {
      AppendEmpty(sections);
    }
  }

  // ---------------------------------------------------------------------
  // properties of the parse

  /** The texts of the content lines, in input order. */
  function Kept(kinds: seq<LineKind>): seq<string> {
    if kinds == [] then []
    else if kinds[0].Content? then [kinds[0].text] + Kept(kinds[1..])
    else Kept(kinds[1..])
  }

  /** The tags of the header lines, in input order. */
  function HeaderTags(kinds: seq<LineKind>): seq<string> {
    if kinds == [] then []
    else if kinds[0].Header? then [kinds[0].tag] + HeaderTags(kinds[1..])
    else HeaderTags(kinds[1..])
  }

  /** Some content line comes before the first header. */
  predicate LeadingContent(kinds: seq<LineKind>) {
    if kinds == [] then false
    else if kinds[0].Ignored? then LeadingContent(kinds[1..])
    else kinds[0].Content?
  }

  lemma {:induction false} ContentsFrom(kinds: seq<LineKind>, tag: string, content: seq<string>)
    ensures Contents(Scan(kinds, tag, content)) == content + Kept(kinds)
    decreases |kinds|
  {
    if kinds != [] {
      match kinds[0]
      case Ignored =>
        ContentsFrom(kinds[1..], tag, content);
      case Header(t) =>
        ContentsAppend(Pending(tag, content), Scan(kinds[1..], t, []));
        ContentsFrom(kinds[1..], t, []);
      case Content(l) =>
        ContentsFrom(kinds[1..], tag, content + [l]);
    }
  }

  lemma {:induction false} KeptNotSkipped(kinds: seq<LineKind>)
    requires ContentKept(kinds)
    ensures forall k :: 0 <= k < |Kept(kinds)| ==> !Skipped(Kept(kinds)[k])
    decreases |kinds|
  {
    if kinds != [] {
      assert ContentKept(kinds[1..]) by {
        forall k | 0 <= k < |kinds[1..]| && kinds[1..][k].Content? ensures !Skipped(kinds[1..][k].text) {
          assert kinds[1..][k] == kinds[k + 1];
        }
      }
      KeptNotSkipped(kinds[1..]);
    }
  }

  /**
   * Concatenating the contents of the sections, in order, gives exactly the
   * texts of the content lines: no blank, comment or header line survives,
   * and every other line survives right-stripped.
   */
  lemma ParseContents(lines: seq<string>)
    ensures Contents(Parse(lines)) == Kept(Kinds(lines))
    ensures forall k :: 0 <= k < |Contents(Parse(lines))| ==> !Skipped(Contents(Parse(lines))[k])
  {
    ContentsFrom(Kinds(lines), "", []);
    KeptNotSkipped(Kinds(lines));
  }

  lemma {:induction false} TagsFrom(kinds: seq<LineKind>, tag: string, content: seq<string>)
    requires WellTagged(kinds)
    ensures tag != "" ==> Tags(Scan(kinds, tag, content)) == [tag] + HeaderTags(kinds)
    ensures tag == "" ==>
              Tags(Scan(kinds, tag, content)) == (if content != [] || LeadingContent(kinds) then [""] else []) + HeaderTags(kinds)
    decreases |kinds|
  {
    if kinds != [] {
      assert WellTagged(kinds[1..]) by {
        forall k | 0 <= k < |kinds[1..]| && kinds[1..][k].Header? ensures kinds[1..][k].tag != "" {
          assert kinds[1..][k] == kinds[k + 1];
        }
      }
      match kinds[0]
      case Ignored =>
        TagsFrom(kinds[1..], tag, content);
      case Header(t) =>
        var p := Pending(tag, content);
        ContentsAppend(p, Scan(kinds[1..], t, []));
        TagsFrom(kinds[1..], t, []);
        assert Tags(p) == if tag != "" || content != [] then [tag] else [];
        AppendAssoc(Tags(p), [t], HeaderTags(kinds[1..]));
        AppendEmpty([t] + HeaderTags(kinds[1..]));
      case Content(l) =>
        TagsFrom(kinds[1..], tag, content + [l]);
    }
  }

  /**
   * The sections are one per header, in input order, preceded by a section
   * with the empty tag exactly when content comes before the first header.
   */
  lemma ParseTags(lines: seq<string>)
    ensures Tags(Parse(lines)) == (if LeadingContent(Kinds(lines)) then [""] else []) + HeaderTags(Kinds(lines))
  {
    TagsFrom(Kinds(lines), "", []);
  }

  lemma {:induction false} NoEmptyFrom(kinds: seq<LineKind>, tag: string, content: seq<string>)
    ensures forall k :: 0 <= k < |Scan(kinds, tag, content)| ==> Scan(kinds, tag, content)[k] != Section("", [])
    decreases |kinds|
  {
    if kinds != [] {
      match kinds[0]
      case Ignored =>
        NoEmptyFrom(kinds[1..], tag, content);
      case Header(t) =>
        NoEmptyFrom(kinds[1..], t, []);
      case Content(l) =>
        NoEmptyFrom(kinds[1..], tag, content + [l]);
    }
  }

  /** No section has both the empty tag and no content; in particular empty input gives no section. */
  lemma ParseNoEmptySection(lines: seq<string>)
    ensures forall k :: 0 <= k < |Parse(lines)| ==> Parse(lines)[k] != Section("", [])
    ensures Parse([]) == []
  {
    NoEmptyFrom(Kinds(lines), "", []);
  }

  // ---------------------------------------------------------------------
  // round trip

  /** A content line that reads back as itself: kept, not a header, no trailing whitespace. */
  predicate PlainLine(l: string) {
    !Skipped(l) && HeaderTag(l).None? && RStrip(l) == l
  }

  /** Each section written as a "[TAG]" line followed by its content lines. */
  function Serialize(secs: seq<Section>): seq<string> {
    if secs == [] then [] else ["[" + secs[0].tag + "]"] + secs[0].content + Serialize(secs[1..])
  }

  predicate Serializable(secs: seq<Section>) {
    forall k :: 0 <= k < |secs| ==>
      IsTag(secs[k].tag, true) && forall j :: 0 <= j < |secs[k].content| ==> PlainLine(secs[k].content[j])
  }

  /** The classified form of `Serialize(secs)`. */
  function SerialKinds(secs: seq<Section>): seq<LineKind> {
    if secs == [] then [] else [Header(secs[0].tag)] + ContentKinds(secs[0].content) + SerialKinds(secs[1..])
  }

  function ContentKinds(ls: seq<string>): (r: seq<LineKind>)
    ensures |r| == |ls|
  {
    if ls == [] then [] else [Content(ls[0])] + ContentKinds(ls[1..])
  }

  lemma {:induction false} KindsAppend(a: seq<string>, b: seq<string>)
    ensures Kinds(a + b) == Kinds(a) + Kinds(b)
    decreases |a|
  {
    if a == [] {
      assert a + b == b;
    } else {
      assert (a + b)[1..] == a[1..] + b;
      KindsAppend(a[1..], b);
    }
  }

  lemma {:induction false} PlainKinds(ls: seq<string>)
    requires forall j :: 0 <= j < |ls| ==> PlainLine(ls[j])
    ensures Kinds(ls) == ContentKinds(ls)
    decreases |ls|
  {
    if ls != [] {
      PlainKinds(ls[1..]);
    }
  }

  lemma {:induction false} SerializeKinds(secs: seq<Section>)
    requires Serializable(secs)
    ensures Kinds(Serialize(secs)) == SerialKinds(secs)
    decreases |secs|
  {
    if secs != [] {
      var s := secs[0];
      assert Serializable(secs[1..]) by {
        forall k | 0 <= k < |secs[1..]|
          ensures IsTag(secs[1..][k].tag, true)
            && forall j :: 0 <= j < |secs[1..][k].content| ==> PlainLine(secs[1..][k].content[j])
        {
          assert secs[1..][k] == secs[k + 1];
        }
      }
      HeaderLine(s.tag);
      KindsAppend(["[" + s.tag + "]"] + s.content, Serialize(secs[1..]));
      KindsAppend(["[" + s.tag + "]"], s.content);
      PlainKinds(s.content);
      SerializeKinds(secs[1..]);
    }
  }

  lemma ScanHead(k: LineKind, rest: seq<LineKind>, tag: string, content: seq<string>)
    ensures k.Ignored? ==> Scan([k] + rest, tag, content) == Scan(rest, tag, content)
    ensures k.Header? ==> Scan([k] + rest, tag, content) == Pending(tag, content) + Scan(rest, k.tag, [])
    ensures k.Content? ==> Scan([k] + rest, tag, content) == Scan(rest, tag, content + [k.text])
  {
    ConsSlices(k, rest);
  }

  lemma {:induction false} ScanContent(ls: seq<string>, rest: seq<LineKind>, tag: string, content: seq<string>)
    ensures Scan(ContentKinds(ls) + rest, tag, content) == Scan(rest, tag, content + ls)
    decreases |ls|
  {
    if ls == [] {
      AppendEmpty(rest);
      AppendEmpty(content);
    } else {
      AppendAssoc([Content(ls[0])], ContentKinds(ls[1..]), rest);
      ScanHead(Content(ls[0]), ContentKinds(ls[1..]) + rest, tag, content);
      ScanContent(ls[1..], rest, tag, content + [ls[0]]);
      AppendAssoc(content, [ls[0]], ls[1..]);
      HeadRest(ls);
    }
  }

  lemma SerializableTail(secs: seq<Section>)
    requires secs != [] && Serializable(secs)
    ensures IsTag(secs[0].tag, true) && Serializable(secs[1..])
  {
    forall k | 0 <= k < |secs[1..]|
      ensures IsTag(secs[1..][k].tag, true)
        && forall j :: 0 <= j < |secs[1..][k].content| ==> PlainLine(secs[1..][k].content[j])
    {
      assert secs[1..][k] == secs[k + 1];
    }
  }

  /** One serialized section: its header, then its content lines appended to the pending content. */
  lemma ScanSection(secs: seq<Section>, tag: string, content: seq<string>)
    requires secs != []
    ensures Scan(SerialKinds(secs), tag, content)
      == Pending(tag, content) + Scan(SerialKinds(secs[1..]), secs[0].tag, secs[0].content)
  {
    var s := secs[0];
    var ck := ContentKinds(s.content);
    var sk := SerialKinds(secs[1..]);
    AppendAssoc([Header(s.tag)], ck, sk);
    ScanHead(Header(s.tag), ck + sk, tag, content);
    ScanContent(s.content, sk, s.tag, []);
    AppendEmpty(s.content);
  }

  lemma {:induction false} ScanSerial(secs: seq<Section>, tag: string, content: seq<string>)
    requires tag != "" && Serializable(secs)
    ensures Scan(SerialKinds(secs), tag, content) == [Section(tag, content)] + secs
    decreases |secs|
  {
    if secs == [] {
      AppendEmpty([Section(tag, content)]);
    } else {
      SerializableTail(secs);
      ScanSection(secs, tag, content);
      ScanSerial(secs[1..], secs[0].tag, secs[0].content);
      HeadRest(secs);
    }
  }

  /** Writing sections as headers and plain content lines, then parsing, gives them back. */
  lemma RoundTrip(secs: seq<Section>)
    requires Serializable(secs)
    ensures Parse(Serialize(secs)) == secs
  {
    SerializeKinds(secs);
    if secs != [] {
      SerializableTail(secs);
      ScanSection(secs, "", []);
      ScanSerial(secs[1..], secs[0].tag, secs[0].content);
      AppendEmpty(Scan(SerialKinds(secs[1..]), secs[0].tag, secs[0].content));
      HeadRest(secs);
    }
  }
}
