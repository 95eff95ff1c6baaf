/**
 * Test cases and test suites of the current generation: a section is a tag
 * with lines of content, a test case is an insertion-ordered tag -> section
 * map that merges repeated tags, and a suite groups sections into cases at
 * every `.TEST` section, replicating the sections before the first one.
 */
module TestData {
  import opened Common
  import opened Text

  /** A section denoted by a tag and with some content. */
  datatype Section = Section(tag: string, content: seq<string>)

  const SectionsTag := ".SECTIONS"
  const TestTag := ".TEST"

  /** `Section.text()`: the content lines, each followed by '\n'; "" for no content. */
  function SectionText(s: Section): (r: string)
    ensures r == Terminated(s.content)
  {
    if s.content == [] then ""
    else
      JoinTerminated(s.content);
      Join("\n", s.content) + "\n"
  }

  /** Splitting a section's text into lines gives its content back. */
  lemma TextLines(s: Section)
    requires forall k :: 0 <= k < |s.content| ==> '\n' !in s.content[k]
    ensures SplitLines(SectionText(s)) == s.content
  {
    SplitTerminated(s.content);
  }

  // ---------------------------------------------------------------------
  // sequences of sections

  function Tags(secs: seq<Section>): (r: seq<string>)
    ensures |r| == |secs|
  {
    if secs == [] then [] else [secs[0].tag] + Tags(secs[1..])
  }

  lemma {:induction false} TagsAt(secs: seq<Section>, k: nat)
    requires k < |secs|
    ensures Tags(secs)[k] == secs[k].tag
    decreases k
  {
    if k > 0 {
      TagsAt(secs[1..], k - 1);
    }
  }

  function Contents(secs: seq<Section>): seq<string> {
    if secs == [] then [] else secs[0].content + Contents(secs[1..])
  }

  lemma {:induction false} ContentsAppend(a: seq<Section>, b: seq<Section>)
    ensures Contents(a + b) == Contents(a) + Contents(b)
    ensures Tags(a + b) == Tags(a) + Tags(b)
    decreases |a|
  {
    if a == [] {
      assert a + b == b;
    } else {
      assert (a + b)[1..] == a[1..] + b;
      ContentsAppend(a[1..], b);
    }
  }

  /** No two sections share a tag. */
  predicate UniqueTags(secs: seq<Section>) {
    forall i, j :: 0 <= i < j < |secs| ==> secs[i].tag != secs[j].tag
  }

  /** Index of the first section with `tag`. */
  function Find(secs: seq<Section>, tag: string): (r: Option<nat>)
    ensures r.None? ==> forall k :: 0 <= k < |secs| ==> secs[k].tag != tag
    ensures r.Some? ==> r.value < |secs| && secs[r.value].tag == tag
    ensures r.Some? ==> forall k :: 0 <= k < r.value ==> secs[k].tag != tag
  {
    if secs == [] then None
    else if secs[0].tag == tag then Some(0)
    else match Find(secs[1..], tag)
      case None => None
      case Some(k) => Some(k + 1)
  }

  /** A tag is found exactly when it is one of the tags. */
  lemma {:induction false} FindTags(secs: seq<Section>, tag: string)
    ensures Find(secs, tag).None? <==> tag !in Tags(secs)
    decreases |secs|
  {
    if secs != [] {
      FindTags(secs[1..], tag);
    }
  }

  /** The first index carrying `tag` is the only answer `Find` can give. */
  lemma FindIs(secs: seq<Section>, tag: string, r: Option<nat>)
    requires r.None? ==> forall k :: 0 <= k < |secs| ==> secs[k].tag != tag
    requires r.Some? ==> r.value < |secs| && secs[r.value].tag == tag
    requires r.Some? ==> forall k :: 0 <= k < r.value ==> secs[k].tag != tag
    ensures Find(secs, tag) == r
  {
    if r.Some? {
      var f := Find(secs, tag);
      assert secs[r.value].tag == tag;
      assert f.Some? && secs[f.value].tag == tag;
    }
  }

  /** The content stored under `tag`, if any. */
  function Lookup(secs: seq<Section>, tag: string): (r: Option<seq<string>>)
    ensures r.None? <==> tag !in Tags(secs)
  {
    FindTags(secs, tag);
    match Find(secs, tag)
    case None => None
    case Some(i) => Some(secs[i].content)
  }

  /** The content stored under `tag`, or nothing. */
  function Prior(secs: seq<Section>, tag: string): seq<string> {
    match Lookup(secs, tag)
    case None => []
    case Some(c) => c
  }

  /**
   * Storing a section in an insertion-ordered map: its content is appended
   * to an existing entry with the same tag, or it becomes a new last entry.
   */
  function Merge(secs: seq<Section>, s: Section): (r: seq<Section>)
  {
    match Find(secs, s.tag)
    case None => secs + [s]
    case Some(i) => secs[i := Section(s.tag, secs[i].content + s.content)]
  }

  /** Merging keeps tags unique and adds the section's tag at the end only when it is new. */
  lemma MergeShape(secs: seq<Section>, s: Section)
    ensures UniqueTags(secs) ==> UniqueTags(Merge(secs, s))
    ensures Tags(Merge(secs, s)) == if s.tag in Tags(secs) then Tags(secs) else Tags(secs) + [s.tag]
  {
    var r := Merge(secs, s);
    FindTags(secs, s.tag);
    match Find(secs, s.tag)
    case None =>
      ContentsAppend(secs, [s]);
      if UniqueTags(secs) {
        forall i | 0 <= i < |secs|
          ensures secs[i].tag != s.tag
        {
          TagsAt(secs, i);
        }
      }
    case Some(i) =>
      forall k | 0 <= k < |secs|
        ensures Tags(r)[k] == Tags(secs)[k]
      {
        TagsAt(r, k);
        TagsAt(secs, k);
      }
  }

  /** Merging changes the entry of the merged tag only, by appending the new content. */
  lemma MergeLookup(secs: seq<Section>, s: Section, t: string)
    ensures Lookup(Merge(secs, s), t) == if t == s.tag then Some(Prior(secs, t) + s.content) else Lookup(secs, t)
  {
    var r := Merge(secs, s);
    var f := Find(secs, t);
    match Find(secs, s.tag)
    case None =>
      AppendEmpty(s.content);
      if t == s.tag {
        FindIs(r, t, Some(|secs|));
      } else {
        FindIs(r, t, f);
      }
    case Some(i) =>
      if t == s.tag {
        FindIs(r, t, Some(i));
      } else {
        FindIs(r, t, f);
      }
  }

  /** The sections of `secs` stored, in order, into an initially empty map. */
  function MergeAll(secs: seq<Section>): (r: seq<Section>)
  {
    if secs == [] then [] else Merge(MergeAll(secs[..|secs| - 1]), secs[|secs| - 1])
  }

  /** The merged map never holds two entries with the same tag. */
  lemma {:induction false} MergeAllUnique(secs: seq<Section>)
    ensures UniqueTags(MergeAll(secs))
    decreases |secs|
  {
    if secs != [] {
      MergeAllUnique(secs[..|secs| - 1]);
      MergeShape(MergeAll(secs[..|secs| - 1]), secs[|secs| - 1]);
    }
  }

  /** The contents of all sections with `tag`, concatenated in order. */
  function Gather(secs: seq<Section>, tag: string): seq<string> {
    if secs == [] then []
    else Gather(secs[..|secs| - 1], tag) + (if secs[|secs| - 1].tag == tag then secs[|secs| - 1].content else [])
  }

  /** The distinct elements of `ts` in order of first appearance. */
  function Dedup(ts: seq<string>): (r: seq<string>)
    ensures forall x :: x in r <==> x in ts
    ensures forall i, j :: 0 <= i < j < |r| ==> r[i] != r[j]
  {
    if ts == [] then []
    else
      var d := Dedup(ts[..|ts| - 1]);
      assert ts == ts[..|ts| - 1] + [ts[|ts| - 1]];
      if ts[|ts| - 1] in d then d else d + [ts[|ts| - 1]]
  }

  /** One more element is appended to the deduplication iff it is new. */
  lemma DedupSnoc(ts: seq<string>, x: string)
    ensures Dedup(ts + [x]) == if x in Dedup(ts) then Dedup(ts) else Dedup(ts) + [x]
  {
    assert (ts + [x])[..|ts|] == ts;
  }

  /** Deduplicating a longer list extends the deduplication of its prefix. */
  lemma {:induction false} DedupExtends(a: seq<string>, b: seq<string>)
    ensures Dedup(a) <= Dedup(a + b)
    decreases |b|
  {
    if b == [] {
      assert a + b == a;
    } else {
      var b' := b[..|b| - 1];
      DedupExtends(a, b');
      assert (a + b)[..|a + b| - 1] == a + b';
    }
  }

  lemma TagsSnoc(secs: seq<Section>)
    requires secs != []
    ensures Tags(secs) == Tags(secs[..|secs| - 1]) + [secs[|secs| - 1].tag]
  {
    var a := secs[..|secs| - 1];
    var l := secs[|secs| - 1];
    LastSplit(secs);
    ContentsAppend(a, [l]);
    assert [l][1..] == [];
    assert Tags([l]) == [l.tag];
  }

  lemma {:induction false} GatherAbsent(secs: seq<Section>, tag: string)
    requires tag !in Tags(secs)
    ensures Gather(secs, tag) == []
    decreases |secs|
  {
    if secs != [] {
      TagsSnoc(secs);
      GatherAbsent(secs[..|secs| - 1], tag);
    }
  }

  lemma MergeAllSnoc(x: seq<Section>, s: Section)
    ensures MergeAll(x + [s]) == Merge(MergeAll(x), s)
  {
    assert (x + [s])[..|x + [s]| - 1] == x;
  }

  /** Repeated tags are merged: the tags appear once each, in order of first appearance. */
  lemma {:induction false} MergeAllTags(secs: seq<Section>)
    ensures Tags(MergeAll(secs)) == Dedup(Tags(secs))
    decreases |secs|
  {
    if secs != [] {
      var a := secs[..|secs| - 1];
      TagsSnoc(secs);
      assert Tags(secs)[..|Tags(secs)| - 1] == Tags(a);
      MergeAllTags(a);
      MergeShape(MergeAll(a), secs[|secs| - 1]);
    }
  }

  /** Each tag holds the contents of all sections with that tag, concatenated in order. */
  lemma {:induction false} MergeAllLookup(secs: seq<Section>, t: string)
    ensures Lookup(MergeAll(secs), t) == if t in Tags(secs) then Some(Gather(secs, t)) else None
    decreases |secs|
  {
    if secs != [] {
      var a := secs[..|secs| - 1];
      var s := secs[|secs| - 1];
      TagsSnoc(secs);
      MergeAllLookup(a, t);
      MergeLookup(MergeAll(a), s, t);
      assert Gather(secs, t) == Gather(a, t) + (if s.tag == t then s.content else []);
      if t !in Tags(a) {
        GatherAbsent(a, t);
      }
      if s.tag != t {
        AppendEmpty(Gather(a, t));
      } else {
        AppendEmpty(s.content);
      }
    }
  }

  // ---------------------------------------------------------------------
  // `.SECTIONS` options

  function SetOf(ws: seq<string>): (r: set<string>)
    ensures forall w :: w in r <==> w in ws
  {
    if ws == [] then {} else {ws[0]} + SetOf(ws[1..])
  }

  /**
   * `_parse_section_options`: every line with at least one word maps its
   * first word to the set of the others; a later line for the same first
   * word replaces an earlier one.
   */
  function ParseOptions(lines: seq<string>): (m: map<string, set<string>>)
  {
    if lines == [] then map[]
    else
      var m := ParseOptions(lines[..|lines| - 1]);
      var ws := Split(lines[|lines| - 1]);
      if ws == [] then m else m[ws[0] := SetOf(ws[1..])]
  }

  /** Options parsed from two blocks of lines: the later block wins on shared tags. */
  lemma {:induction false} ParseOptionsAppend(a: seq<string>, b: seq<string>)
    ensures ParseOptions(a + b) == ParseOptions(a) + ParseOptions(b)
    decreases |b|
  {
    if b == [] {
      assert a + b == a;
    } else {
      var b' := b[..|b| - 1];
      assert (a + b)[..|a + b| - 1] == a + b';
      assert (a + b)[|a + b| - 1] == b[|b| - 1];
      ParseOptionsAppend(a, b');
    }
  }

  /** A tag has options exactly when some line starts with it. */
  lemma {:induction false} ParseOptionsKeys(lines: seq<string>, t: string)
    ensures t in ParseOptions(lines) <==> exists k :: 0 <= k < |lines| && Split(lines[k]) != [] && Split(lines[k])[0] == t
    decreases |lines|
  {
    if lines != [] {
      var a := lines[..|lines| - 1];
      ParseOptionsKeys(a, t);
      if exists k :: 0 <= k < |a| && Split(a[k]) != [] && Split(a[k])[0] == t {
        var k :| 0 <= k < |a| && Split(a[k]) != [] && Split(a[k])[0] == t;
        assert lines[k] == a[k];
      }
      if exists k :: 0 <= k < |lines| && Split(lines[k]) != [] && Split(lines[k])[0] == t {
        var k :| 0 <= k < |lines| && Split(lines[k]) != [] && Split(lines[k])[0] == t;
        if k < |a| {
          assert a[k] == lines[k];
        }
      }
    }
  }

  /** The last line that starts with a tag decides the tag's options. */
  lemma LastOptionsWin(a: seq<string>, l: string, b: seq<string>)
    requires Split(l) != []
    requires forall k :: 0 <= k < |b| && Split(b[k]) != [] ==> Split(b[k])[0] != Split(l)[0]
    ensures Split(l)[0] in ParseOptions(a + [l] + b)
    ensures ParseOptions(a + [l] + b)[Split(l)[0]] == SetOf(Split(l)[1..])
  {
    ParseOptionsAppend(a + [l], b);
    ParseOptionsKeys(b, Split(l)[0]);
    assert (a + [l])[..|a + [l]| - 1] == a;
  }

  // ---------------------------------------------------------------------
  // special sections

  /** Sections whose tag is empty or starts with '.' are special. */
  predicate Special(tag: string) { tag == "" || tag[0] == '.' }

  /** The non-special sections, in order. */
  function Regular(secs: seq<Section>): (r: seq<Section>)
    ensures forall s :: s in r <==> s in secs && !Special(s.tag)
  {
    if secs == [] then []
    else (if Special(secs[0].tag) then [] else [secs[0]]) + Regular(secs[1..])
  }

  lemma {:induction false} RegularAppend(a: seq<Section>, b: seq<Section>)
    ensures Regular(a + b) == Regular(a) + Regular(b)
    decreases |a|
  {
    if a == [] {
      assert a + b == b;
    } else {
      assert (a + b)[1..] == a[1..] + b;
      RegularAppend(a[1..], b);
      AppendAssoc(if Special(a[0].tag) then [] else [a[0]], Regular(a[1..]), Regular(b));
    }
  }

  /** The sections of a test case's input other than `.SECTIONS`, in order. */
  function Stored(secs: seq<Section>): (r: seq<Section>)
  {
    if secs == [] then []
    else Stored(secs[..|secs| - 1]) + (if secs[|secs| - 1].tag == SectionsTag then [] else [secs[|secs| - 1]])
  }

  // ---------------------------------------------------------------------
  // test cases

  lemma CaseStep(secs: seq<Section>, i: nat)
    requires i < |secs|
    ensures secs[i].tag == SectionsTag ==>
      Stored(secs[..i + 1]) == Stored(secs[..i]) &&
      Gather(secs[..i + 1], SectionsTag) == Gather(secs[..i], SectionsTag) + secs[i].content
    ensures secs[i].tag != SectionsTag ==>
      Stored(secs[..i + 1]) == Stored(secs[..i]) + [secs[i]] &&
      Gather(secs[..i + 1], SectionsTag) == Gather(secs[..i], SectionsTag)
  {
    assert secs[..i + 1][..i] == secs[..i];
    AppendEmpty(Stored(secs[..i]));
    AppendEmpty(Gather(secs[..i], SectionsTag));
  }

  /** A test case with an optional description. */
  class TestCase {
    var description: Option<string>
    /** The insertion-ordered tag -> section map, as a sequence with unique tags. */
    var sections: seq<Section>
    var options: map<string, set<string>>

    /** A test case holding `secs` added in order. */
    ghost predicate Holds(secs: seq<Section>)
      reads this
    {
      sections == MergeAll(Stored(secs)) && options == ParseOptions(Gather(secs, SectionsTag))
    }

    constructor(description: Option<string>, secs: seq<Section>)
      ensures this.description == description && Holds(secs)
    {
      this.description := description;
      sections := [];
      options := map[];
      new;
      var i := 0;
      while i < |secs|
        invariant 0 <= i <= |secs|
        invariant this.description == description && Holds(secs[..i])
      {
        CaseStep(secs, i);
        MergeAllSnoc(Stored(secs[..i]), secs[i]);
        ParseOptionsAppend(Gather(secs[..i], SectionsTag), secs[i].content);
        AddSection(secs[i]);
        i := i + 1;
      }
      assert secs[..i] == secs;
    }

    /**
     * `add_section`: `.SECTIONS` content updates the options; any other
     * section is merged into the map.
     */
    method AddSection(s: Section)
      modifies this
      ensures description == old(description)
      ensures s.tag == SectionsTag ==> sections == old(sections) && options == old(options) + ParseOptions(s.content)
      ensures s.tag != SectionsTag ==> sections == Merge(old(sections), s) && options == old(options)
    {
      if s.tag == SectionsTag {
        var opts := ParseOptions(s.content);
        options := options + opts;
      } else {
        var i := Find(sections, s.tag);
        if i.Some? {
          sections := sections[i.value := Section(s.tag, sections[i.value].content + s.content)];
        } else {
          sections := sections + [s];
        }
      }
    }

    /** `find_section`. */
    function FindSection(tag: string): (r: Option<Section>)
      reads this
      ensures r.None? <==> tag !in Tags(sections)
      ensures r.Some? ==> r.value in sections && r.value.tag == tag
    {
      FindTags(sections, tag);
      match Find(sections, tag)
      case None => None
      case Some(i) => Some(sections[i])
    }

    /** `find_section_content`: the section's text, or `default` when the tag is absent. */
    function FindSectionContent(tag: string, default: string): (r: string)
      reads this
      ensures tag !in Tags(sections) ==> r == default
      ensures tag in Tags(sections) ==> r == Terminated(Prior(sections, tag))
    {
      match FindSection(tag)
      case None => default
      case Some(s) => SectionText(s)
    }

    /** `section_options`: the options given for `tag`, or none. */
    function SectionOptions(tag: string): (r: set<string>)
      reads this
      ensures tag in options ==> r == options[tag]
      ensures tag !in options ==> r == {}
    {
      if tag in options then options[tag] else {}
    }

    /** `sections(exclude_special)`. */
    function SectionList(excludeSpecial: bool): (r: seq<Section>)
      reads this
      ensures !excludeSpecial ==> r == sections
      ensures excludeSpecial ==> forall s :: s in r <==> s in sections && !Special(s.tag)
    {
      if excludeSpecial then Regular(sections) else sections
    }
  }

  /** The stored content of a tag is the concatenation of the contents of every section added with it. */
  lemma CaseContents(secs: seq<Section>, t: string)
    requires t != SectionsTag
    ensures Lookup(MergeAll(Stored(secs)), t) == if t in Tags(secs) then Some(Gather(secs, t)) else None
  {
    MergeAllLookup(Stored(secs), t);
    StoredGather(secs, t);
  }

  lemma {:induction false} StoredGather(secs: seq<Section>, t: string)
    requires t != SectionsTag
    ensures Gather(Stored(secs), t) == Gather(secs, t)
    ensures t in Tags(Stored(secs)) <==> t in Tags(secs)
    decreases |secs|
  {
    if secs != [] {
      var a := secs[..|secs| - 1];
      var s := secs[|secs| - 1];
      StoredGather(a, t);
      TagsSnoc(secs);
      var st := Stored(secs);
      if s.tag != SectionsTag {
        assert st[..|st| - 1] == Stored(a);
        TagsSnoc(st);
      } else {
        AppendEmpty(Stored(a));
      }
    }
  }

  // ---------------------------------------------------------------------
  // test suites

  /** A group of sections produced by `_group_tests`: a name and the sections up to the next `.TEST`. */
  datatype Group = Group(name: Option<string>, secs: seq<Section>)

  /** The description of the `n`-th test: its first content line stripped, or "Test-n". */
  function Description(s: Section, n: nat): string {
    if |s.content| > 0 then Strip(s.content[0]) else "Test-" + NatToString(n)
  }

  /** The groups still to be yielded while `name`, `lst` and the counter `n` are pending. */
  function GroupFrom(rest: seq<Section>, name: Option<string>, lst: seq<Section>, n: nat): (r: seq<Group>)
    decreases |rest|
  {
    if rest == [] then (if n > 0 || lst != [] then [Group(name, lst)] else [])
    else if rest[0].tag == TestTag then
      [Group(name, lst)] + GroupFrom(rest[1..], Some(Description(rest[0], n + 1)), [], n + 1)
    else GroupFrom(rest[1..], name, lst + [rest[0]], n)
  }

  /** `_group_tests(sections)`. */
  function Groups(sections: seq<Section>): seq<Group> { GroupFrom(sections, None, [], 0) }

  lemma GroupHead(s: Section, rest: seq<Section>, name: Option<string>, lst: seq<Section>, n: nat)
    ensures s.tag == TestTag ==>
      GroupFrom([s] + rest, name, lst, n) == [Group(name, lst)] + GroupFrom(rest, Some(Description(s, n + 1)), [], n + 1)
    ensures s.tag != TestTag ==> GroupFrom([s] + rest, name, lst, n) == GroupFrom(rest, name, lst + [s], n)
  {
    ConsSlices(s, rest);
  }

  /** The generator `_group_tests`, collecting what it yields. */
  method GroupTests(sections: seq<Section>) returns (groups: seq<Group>)
    ensures groups == Groups(sections)
  {
    groups := [];
    var name: Option<string> := None;
    var lst: seq<Section> := [];
    var n: nat := 0;
    var i := 0;
    while i < |sections|
      invariant 0 <= i <= |sections|
      invariant groups + GroupFrom(sections[i..], name, lst, n) == Groups(sections)
    {
      var s := sections[i];
      assert sections[i..] == [s] + sections[i + 1..];
      GroupHead(s, sections[i + 1..], name, lst, n);
      if s.tag == TestTag {
        AppendAssoc(groups, [Group(name, lst)], GroupFrom(sections[i + 1..], Some(Description(s, n + 1)), [], n + 1));
        groups := groups + [Group(name, lst)];
        lst := [];
        n := n + 1;
        name := Some(Description(s, n));
      } else {
        lst := lst + [s];
      }
      i := i + 1;
    }
    if n > 0 || lst != [] {
      groups := groups + [Group(name, lst)];
    } else {
      AppendEmpty(groups);
    }
  }

  /** The number of `.TEST` sections. */
  function CountTests(secs: seq<Section>): nat {
    if secs == [] then 0 else (if secs[0].tag == TestTag then 1 else 0) + CountTests(secs[1..])
  }

  /** The names of the tests opened by the `.TEST` sections, the first numbered `n + 1`. */
  function TestNames(secs: seq<Section>, n: nat): (r: seq<Option<string>>)
    ensures |r| == CountTests(secs)
  {
    if secs == [] then []
    else if secs[0].tag == TestTag then [Some(Description(secs[0], n + 1))] + TestNames(secs[1..], n + 1)
    else TestNames(secs[1..], n)
  }

  /** The sections that are not `.TEST`, in order. */
  function NonTest(secs: seq<Section>): seq<Section> {
    if secs == [] then [] else (if secs[0].tag == TestTag then [] else [secs[0]]) + NonTest(secs[1..])
  }

  /** The sections before the first `.TEST`. */
  function Before(secs: seq<Section>): seq<Section> {
    if secs == [] || secs[0].tag == TestTag then [] else [secs[0]] + Before(secs[1..])
  }

  function Names(gs: seq<Group>): (r: seq<Option<string>>)
    ensures |r| == |gs|
  {
    if gs == [] then [] else [gs[0].name] + Names(gs[1..])
  }

  function Members(gs: seq<Group>): seq<Section> {
    if gs == [] then [] else gs[0].secs + Members(gs[1..])
  }

  lemma {:induction false} NamesMembersAppend(a: seq<Group>, b: seq<Group>)
    ensures Names(a + b) == Names(a) + Names(b)
    ensures Members(a + b) == Members(a) + Members(b)
    decreases |a|
  {
    if a == [] {
      assert a + b == b;
    } else {
      assert (a + b)[1..] == a[1..] + b;
      NamesMembersAppend(a[1..], b);
      AppendAssoc(a[0].secs, Members(a[1..]), Members(b));
    }
  }

  /** One group per `.TEST`, plus the pending one, yielded when a `.TEST` was seen or sections remain. */
  lemma {:induction false} GroupCount(rest: seq<Section>, name: Option<string>, lst: seq<Section>, n: nat)
    ensures |GroupFrom(rest, name, lst, n)| == CountTests(rest) + (if n > 0 || lst != [] || rest != [] then 1 else 0)
    decreases |rest|
  {
    if rest != [] {
      if rest[0].tag == TestTag {
        var tail := GroupFrom(rest[1..], Some(Description(rest[0], n + 1)), [], n + 1);
        assert GroupFrom(rest, name, lst, n) == [Group(name, lst)] + tail;
        assert CountTests(rest) == 1 + CountTests(rest[1..]);
        GroupCount(rest[1..], Some(Description(rest[0], n + 1)), [], n + 1);
      } else {
        assert GroupFrom(rest, name, lst, n) == GroupFrom(rest[1..], name, lst + [rest[0]], n);
        assert CountTests(rest) == CountTests(rest[1..]);
        assert lst + [rest[0]] != [];
        GroupCount(rest[1..], name, lst + [rest[0]], n);
      }
    }
  }

  /** The names yielded are the pending name, then the descriptions of the tests, in order. */
  lemma {:induction false} GroupNames(rest: seq<Section>, name: Option<string>, lst: seq<Section>, n: nat)
    requires n > 0 || lst != [] || rest != []
    ensures Names(GroupFrom(rest, name, lst, n)) == [name] + TestNames(rest, n)
    decreases |rest|
  {
    if rest != [] {
      if rest[0].tag == TestTag {
        var tail := GroupFrom(rest[1..], Some(Description(rest[0], n + 1)), [], n + 1);
        GroupNames(rest[1..], Some(Description(rest[0], n + 1)), [], n + 1);
        NamesMembersAppend([Group(name, lst)], tail);
      } else {
        GroupNames(rest[1..], name, lst + [rest[0]], n);
      }
    }
  }

  /** The sections yielded are the pending ones, then every non-`.TEST` section, in order. */
  lemma {:induction false} GroupMembers(rest: seq<Section>, name: Option<string>, lst: seq<Section>, n: nat)
    ensures Members(GroupFrom(rest, name, lst, n)) == lst + NonTest(rest)
    decreases |rest|
  {
    if rest == [] {
      AppendEmpty(lst);
    } else if rest[0].tag == TestTag {
      var tail := GroupFrom(rest[1..], Some(Description(rest[0], n + 1)), [], n + 1);
      GroupMembers(rest[1..], Some(Description(rest[0], n + 1)), [], n + 1);
      NamesMembersAppend([Group(name, lst)], tail);
      AppendEmpty(lst);
    } else {
      GroupMembers(rest[1..], name, lst + [rest[0]], n);
      AppendAssoc(lst, [rest[0]], NonTest(rest[1..]));
    }
  }

  /** The first group yielded holds the pending sections and those before the next `.TEST`. */
  lemma {:induction false} GroupFirst(rest: seq<Section>, name: Option<string>, lst: seq<Section>, n: nat)
    requires n > 0 || lst != [] || rest != []
    ensures GroupFrom(rest, name, lst, n) != []
    ensures GroupFrom(rest, name, lst, n)[0].secs == lst + Before(rest)
    decreases |rest|
  {
    if rest == [] {
      AppendEmpty(lst);
    } else if rest[0].tag == TestTag {
      AppendEmpty(lst);
    } else {
      GroupFirst(rest[1..], name, lst + [rest[0]], n);
      AppendAssoc(lst, [rest[0]], Before(rest[1..]));
    }
  }

  /** The cases of a suite, as (description, sections added in order) pairs. */
  function SuiteCases(sections: seq<Section>): (r: seq<Group>)
    ensures |r| >= 1
  {
    var gs := Groups(sections);
    var prefix := if gs == [] then [] else gs[0].secs;
    if |gs| > 1 then WithPrefix(prefix, gs[1..]) else [Group(None, prefix)]
  }

  /** Each group's sections preceded by the common prefix. */
  function WithPrefix(prefix: seq<Section>, gs: seq<Group>): (r: seq<Group>)
    ensures |r| == |gs|
    ensures forall k :: 0 <= k < |gs| ==> r[k] == Group(gs[k].name, prefix + gs[k].secs)
  {
    if gs == [] then [] else [Group(gs[0].name, prefix + gs[0].secs)] + WithPrefix(prefix, gs[1..])
  }

  /**
   * A suite always has at least one case: one per `.TEST`, or, without
   * `.TEST`, a single unnamed case holding every section.
   */
  lemma SuiteCount(sections: seq<Section>)
    ensures CountTests(sections) > 0 ==> |SuiteCases(sections)| == CountTests(sections)
    ensures CountTests(sections) == 0 ==> SuiteCases(sections) == [Group(None, sections)]
  {
    GroupCount(sections, None, [], 0);
    if sections != [] {
      GroupFirst(sections, None, [], 0);
    }
    AppendEmpty(Before(sections));
    if CountTests(sections) == 0 {
      NoTestsAllBefore(sections);
    }
  }

  /** With `.TEST` sections, the cases are named by the tests' descriptions, in order. */
  lemma SuiteNames(sections: seq<Section>)
    requires CountTests(sections) > 0
    ensures Names(SuiteCases(sections)) == TestNames(sections, 0)
  {
    assert sections != [];
    GroupCount(sections, None, [], 0);
    GroupNames(sections, None, [], 0);
    var gs := Groups(sections);
    assert |gs| > 1;
    var ns := Names(gs[1..]);
    assert Names(gs) == [gs[0].name] + ns;
    assert Names(gs)[1..] == ns;
    assert ([None] + TestNames(sections, 0))[1..] == TestNames(sections, 0);
    assert SuiteCases(sections) == WithPrefix(gs[0].secs, gs[1..]);
    WithPrefixNames(gs[0].secs, gs[1..]);
  }

  /** Every case starts with the sections before the first `.TEST`. */
  lemma SuitePrefix(sections: seq<Section>, k: nat)
    requires k < |SuiteCases(sections)|
    ensures Before(sections) <= SuiteCases(sections)[k].secs
  {
    if sections != [] {
      GroupFirst(sections, None, [], 0);
      AppendEmpty(Before(sections));
    }
  }

  lemma {:induction false} WithPrefixNames(prefix: seq<Section>, gs: seq<Group>)
    ensures Names(WithPrefix(prefix, gs)) == Names(gs)
    decreases |gs|
  {
    if gs != [] {
      WithPrefixNames(prefix, gs[1..]);
    }
  }

  lemma {:induction false} NoTestsAllBefore(secs: seq<Section>)
    requires CountTests(secs) == 0
    ensures Before(secs) == secs
    decreases |secs|
  {
    if secs != [] {
      NoTestsAllBefore(secs[1..]);
    }
  }

  /** What `test_case` gives back: a case, or an exit of the process with a status. */
  datatype Selected = Case(c: TestCase) | Exit(status: int, number: int)

  /** `c` is the test case built from group `g`. */
  ghost predicate CaseOf(c: TestCase, g: Group)
    reads c
  {
    c.description == g.name && c.Holds(g.secs)
  }

  /** A new test case for each group, holding its sections. */
  method NewCases(gs: seq<Group>) returns (built: seq<TestCase>)
    ensures |built| == |gs|
    ensures forall k :: 0 <= k < |gs| ==> CaseOf(built[k], gs[k])
    ensures forall k :: 0 <= k < |built| ==> fresh(built[k])
    ensures forall j, k :: 0 <= j < k < |built| ==> built[j] != built[k]
  {
    built := [];
    var i := 0;
    while i < |gs|
      invariant 0 <= i <= |gs|
      invariant |built| == i
      invariant forall k :: 0 <= k < i ==> CaseOf(built[k], gs[k])
      invariant forall k :: 0 <= k < i ==> fresh(built[k])
      invariant forall j, k :: 0 <= j < k < i ==> built[j] != built[k]
    {
      var c := new TestCase(gs[i].name, gs[i].secs);
      built := built + [c];
      i := i + 1;
    }
  }

  /** A set of test cases. */
  class TestSuite {
    var cases: seq<TestCase>

    constructor(sections: seq<Section>)
      ensures |cases| == |SuiteCases(sections)|
      ensures forall k :: 0 <= k < |cases| ==> CaseOf(cases[k], SuiteCases(sections)[k])
    {
      var gs := GroupTests(sections);
      var prefix := if gs == [] then [] else gs[0].secs;
      var built: seq<TestCase> := [];
      if |gs| > 1 {
        built := NewCases(WithPrefix(prefix, gs[1..]));
      }
      if built == [] {
        built := NewCases([Group(None, prefix)]);
      }
      cases := built;
    }

    /** `test_case(n)`: case `n`, or exit status 2 reporting test number `n + 1`. */
    method TestCaseAt(n: int) returns (r: Selected)
      ensures 0 <= n < |cases| ==> r == Case(cases[n])
      ensures !(0 <= n < |cases|) ==> r == Exit(2, n + 1)
    {
      if n < 0 || n >= |cases| {
        r := Exit(2, n + 1);
      } else {
        r := Case(cases[n]);
      }
    }
  }
}
