/**
 * Test cases and suites of the older generation (src/testdata.py): a test
 * case keeps its sections exactly as given, a suite distributes sections to
 * a prefix and to the case opened by the latest `.TEST`, and iteration
 * merges the prefix and each case's sections per tag.
 */
module LegacyTestData {
  import opened Common
  import opened TestData

  /** A test case with an optional description; its sections are stored as given. */
  class LegacyTestCase {
    var description: Option<string>
    var sections: seq<Section>

    constructor(description: Option<string>, sections: seq<Section>)
      ensures this.description == description && this.sections == sections
    {
      this.description := description;
      this.sections := sections;
    }

    /** `find_section`: the first section with `tag`, or `default`. */
    function FindSection(tag: string, default: Option<Section>): (r: Option<Section>)
      reads this
      ensures tag !in Tags(sections) ==> r == default
      ensures tag in Tags(sections) ==>
        exists k :: 0 <= k < |sections| && r == Some(sections[k]) && sections[k].tag == tag &&
                    forall j :: 0 <= j < k ==> sections[j].tag != tag
    {
      FindTags(sections, tag);
      match Find(sections, tag)
      case None => default
      case Some(i) => Some(sections[i])
    }
  }

  // ---------------------------------------------------------------------
  // distributing sections to the prefix and the cases

  /**
   * Where the suite constructor has put the sections so far: the prefix
   * and the cases, each a description with the sections appended to it.
   */
  datatype Layout = Layout(prefix: seq<Section>, cases: seq<Group>)

  /**
   * One iteration of the constructor's loop: `.TEST` opens a case named by
   * its first line stripped or "Test-k" (k the new case count); any other
   * section goes to `dest`, the prefix before the first case and the
   * latest case after it.
   */
  function Step(l: Layout, s: Section): (r: Layout)
  {
    if s.tag == TestTag then Layout(l.prefix, l.cases + [Group(Some(Description(s, |l.cases| + 1)), [])])
    else if l.cases == [] then Layout(l.prefix + [s], [])
    else
      var last := l.cases[|l.cases| - 1];
      Layout(l.prefix, l.cases[..|l.cases| - 1] + [Group(last.name, last.secs + [s])])
  }

  /** The layout after the loop has visited every section of `rest`, starting from `l`. */
  function Place(rest: seq<Section>, l: Layout): Layout
    decreases |rest|
  {
    if rest == [] then l else Place(rest[1..], Step(l, rest[0]))
  }

  /** The layout of a suite: with no `.TEST` the prefix becomes the single unnamed case. */
  function SuiteLayout(sections: seq<Section>): (r: Layout)
    ensures |r.cases| >= 1
  {
    var l := Place(sections, Layout([], []));
    if l.cases == [] then Layout([], [Group(None, l.prefix)]) else l
  }

  lemma PlaceHead(sections: seq<Section>, i: nat, l: Layout)
    requires i < |sections|
    ensures Place(sections[i..], l) == Place(sections[i + 1..], Step(l, sections[i]))
  {
    assert sections[i..][1..] == sections[i + 1..];
  }

  /** `TestSuite.__init__`, collecting the cases as values before building the case objects. */
  method Distribute(sections: seq<Section>) returns (l: Layout)
    ensures l == SuiteLayout(sections)
  {
    var prefix: seq<Section> := [];
    var cases: seq<Group> := [];
    var i := 0;
    while i < |sections|
      invariant 0 <= i <= |sections|
      invariant Place(sections[i..], Layout(prefix, cases)) == Place(sections, Layout([], []))
    {
      var s := sections[i];
      PlaceHead(sections, i, Layout(prefix, cases));
      if s.tag == TestTag {
        cases := cases + [Group(Some(Description(s, |cases| + 1)), [])];
      } else if cases == [] {
        prefix := prefix + [s];
      } else {
        var last := cases[|cases| - 1];
        cases := cases[..|cases| - 1] + [Group(last.name, last.secs + [s])];
      }
      i := i + 1;
    }
    assert sections[i..] == [];
    if cases == [] {
      cases := [Group(None, prefix)];
      prefix := [];
    }
    l := Layout(prefix, cases);
  }

  // ---------------------------------------------------------------------
  // what the distribution amounts to

  /** Without `.TEST`, every section stays in the prefix. */
  lemma {:induction false} PlaceNoTests(rest: seq<Section>, p: seq<Section>)
    requires CountTests(rest) == 0
    ensures Place(rest, Layout(p, [])) == Layout(p + rest, [])
    decreases |rest|
  {
    if rest == [] {
      AppendEmpty(p);
    } else {
      PlaceNoTests(rest[1..], p + [rest[0]]);
      AppendAssoc(p, [rest[0]], rest[1..]);
      HeadRest(rest);
    }
  }

  /** Once a case is open, the cases grow exactly as the newer `_group_tests` yields groups. */
  lemma {:induction false} PlaceGroups(rest: seq<Section>, l: Layout)
    requires l.cases != []
    ensures Place(rest, l).prefix == l.prefix
    ensures Place(rest, l).cases ==
      l.cases[..|l.cases| - 1] +
      GroupFrom(rest, l.cases[|l.cases| - 1].name, l.cases[|l.cases| - 1].secs, |l.cases|)
    decreases |rest|
  {
    var k := |l.cases|;
    var last := l.cases[k - 1];
    if rest == [] {
      LastSplit(l.cases);
    } else {
      var s := rest[0];
      var l' := Step(l, s);
      PlaceGroups(rest[1..], l');
      if s.tag == TestTag {
        var g := Group(Some(Description(s, k + 1)), []);
        SnocSlices(l.cases, g);
        LastSplit(l.cases);
        AppendAssoc(l.cases[..k - 1], [last], GroupFrom(rest[1..], g.name, [], k + 1));
      } else {
        var g := Group(last.name, last.secs + [s]);
        SnocSlices(l.cases[..k - 1], g);
      }
    }
  }

  /** Before the first `.TEST`, the sections go to the prefix; `.TEST` then opens the first case. */
  lemma {:induction false} PlaceFirst(rest: seq<Section>, p: seq<Section>)
    requires CountTests(rest) > 0
    ensures Place(rest, Layout(p, [])).prefix == p + Before(rest)
    ensures GroupFrom(rest, None, p, 0) ==
      [Group(None, Place(rest, Layout(p, [])).prefix)] + Place(rest, Layout(p, [])).cases
    decreases |rest|
  {
    var s := rest[0];
    if s.tag == TestTag {
      var g := Group(Some(Description(s, 1)), []);
      assert Step(Layout(p, []), s) == Layout(p, [g]);
      assert Place(rest, Layout(p, [])) == Place(rest[1..], Layout(p, [g]));
      PlaceGroups(rest[1..], Layout(p, [g]));
      assert Before(rest) == [];
      AppendEmpty(p);
      assert [g][..0] == [];
      AppendEmpty(GroupFrom(rest[1..], g.name, [], 1));
    } else {
      PlaceFirst(rest[1..], p + [s]);
      AppendAssoc(p, [s], Before(rest[1..]));
    }
  }

  /**
   * Both generations group a suite the same way: the prefix followed by
   * each older case's sections is exactly the newer suite's case.
   */
  lemma LegacyGroupsAgree(sections: seq<Section>)
    ensures WithPrefix(SuiteLayout(sections).prefix, SuiteLayout(sections).cases) == SuiteCases(sections)
  {
    if CountTests(sections) == 0 {
      PlaceNoTests(sections, []);
      SuiteCount(sections);
      AppendEmpty(sections);
    } else {
      PlaceFirst(sections, []);
      var l := Place(sections, Layout([], []));
      GroupCount(sections, None, [], 0);
      assert l.cases != [];
      var gs := Groups(sections);
      assert gs[0].secs == l.prefix && gs[1..] == l.cases;
    }
  }

  /** Once a case is open, some case stays open. */
  lemma {:induction false} PlaceOpen(rest: seq<Section>, l: Layout)
    requires l.cases != []
    ensures Place(rest, l).cases != []
    decreases |rest|
  {
    if rest != [] {
      PlaceOpen(rest[1..], Step(l, rest[0]));
    }
  }

  /** With `.TEST` sections, the loop leaves some case open, so the prefix is not turned into a case. */
  lemma {:induction false} PlaceOpens(rest: seq<Section>, p: seq<Section>)
    requires CountTests(rest) > 0
    ensures Place(rest, Layout(p, [])).cases != []
    decreases |rest|
  {
    var s := rest[0];
    if s.tag == TestTag {
      PlaceOpen(rest[1..], Step(Layout(p, []), s));
    } else {
      PlaceOpens(rest[1..], p + [s]);
    }
  }

  /** With `.TEST` sections, there is one case per `.TEST`. */
  lemma LegacySuiteCount(sections: seq<Section>)
    requires CountTests(sections) > 0
    ensures |SuiteLayout(sections).cases| == CountTests(sections)
  {
    LegacyGroupsAgree(sections);
    SuiteCount(sections);
  }

  /** With `.TEST` sections, the cases are named in order by the tests' descriptions. */
  lemma LegacySuiteNames(sections: seq<Section>)
    requires CountTests(sections) > 0
    ensures Names(SuiteLayout(sections).cases) == TestNames(sections, 0)
  {
    var l := SuiteLayout(sections);
    LegacyGroupsAgree(sections);
    WithPrefixNames(l.prefix, l.cases);
    SuiteNames(sections);
  }

  /** With `.TEST` sections, the prefix is the sections before the first `.TEST`. */
  lemma LegacySuitePrefix(sections: seq<Section>)
    requires CountTests(sections) > 0
    ensures SuiteLayout(sections).prefix == Before(sections)
  {
    PlaceOpens(sections, []);
    PlaceFirst(sections, []);
    AppendEmpty(Before(sections));
  }

  /** With no `.TEST`, one unnamed case holds every section and the prefix is empty. */
  lemma LegacySuiteNoTests(sections: seq<Section>)
    requires CountTests(sections) == 0
    ensures SuiteLayout(sections) == Layout([], [Group(None, sections)])
  {
    PlaceNoTests(sections, []);
    AppendEmpty(sections);
  }

  // ---------------------------------------------------------------------
  // the suite

  /** A new case object for each group. */
  method NewLegacyCases(gs: seq<Group>) returns (built: seq<LegacyTestCase>)
    ensures |built| == |gs|
    ensures forall k :: 0 <= k < |gs| ==> built[k].description == gs[k].name && built[k].sections == gs[k].secs
  {
    built := [];
    var i := 0;
    while i < |gs|
      invariant 0 <= i <= |gs|
      invariant |built| == i
      invariant forall k :: 0 <= k < i ==> built[k].description == gs[k].name && built[k].sections == gs[k].secs
    {
      var c := new LegacyTestCase(gs[i].name, gs[i].secs);
      built := built + [c];
      i := i + 1;
    }
  }

  /** The case a group becomes once the prefix is put before it and its tags are merged. */
  function Merged(prefix: seq<Section>, g: Group): Group {
    Group(g.name, MergeAll(prefix + g.secs))
  }

  /** A set of test cases with a prefix of sections replicated in each of them. */
  class LegacySuite {
    var prefix: seq<Section>
    var cases: seq<LegacyTestCase>

    constructor(sections: seq<Section>)
      ensures prefix == SuiteLayout(sections).prefix
      ensures |cases| == |SuiteLayout(sections).cases|
      ensures forall k :: 0 <= k < |cases| ==>
        cases[k].description == SuiteLayout(sections).cases[k].name &&
        cases[k].sections == SuiteLayout(sections).cases[k].secs
    {
      var l := Distribute(sections);
      var built := NewLegacyCases(l.cases);
      prefix := l.prefix;
      cases := built;
    }

    /**
     * `__iter__`: for each case, the prefix followed by the case's own
     * sections, stored into a fresh insertion-ordered map that concatenates
     * the content of repeated tags. Nothing stored is modified.
     */
    method Iterate() returns (out: seq<Group>)
      ensures |out| == |cases|
      ensures forall k :: 0 <= k < |cases| ==>
        out[k] == Merged(prefix, Group(cases[k].description, cases[k].sections))
    {
      out := [];
      var n := 0;
      while n < |cases|
        invariant 0 <= n <= |cases|
        invariant |out| == n
        invariant forall k :: 0 <= k < n ==>
          out[k] == Merged(prefix, Group(cases[k].description, cases[k].sections))
      {
        var case_ := cases[n];
        var all := prefix + case_.sections;
        var sects: seq<Section> := [];
        var j := 0;
        while j < |all|
          invariant 0 <= j <= |all|
          invariant sects == MergeAll(all[..j])
        {
          assert all[..j + 1] == all[..j] + [all[j]];
          MergeAllSnoc(all[..j], all[j]);
          sects := Merge(sects, all[j]);
          j := j + 1;
        }
        assert all[..j] == all;
        out := out + [Group(case_.description, sects)];
        n := n + 1;
      }
    }
  }

  /**
   * The cases iteration yields: each newer-generation case's sections merged
   * per tag, so in a suite without `.SECTIONS` both generations agree.
   */
  lemma IterationCases(sections: seq<Section>, k: nat)
    requires k < |SuiteCases(sections)|
    ensures k < |SuiteLayout(sections).cases|
    ensures Merged(SuiteLayout(sections).prefix, SuiteLayout(sections).cases[k]) ==
            Group(SuiteCases(sections)[k].name, MergeAll(SuiteCases(sections)[k].secs))
  {
    LegacyGroupsAgree(sections);
  }

  /** Each yielded case has unique tags, and each tag holds all content given for it, in order. */
  lemma IterationMerges(prefix: seq<Section>, g: Group, t: string)
    ensures UniqueTags(Merged(prefix, g).secs)
    ensures Lookup(Merged(prefix, g).secs, t) ==
      if t in Tags(prefix + g.secs) then Some(Gather(prefix + g.secs, t)) else None
  {
    MergeAllUnique(prefix + g.secs);
    MergeAllLookup(prefix + g.secs, t);
  }
}
