/**
 * Message translation of the older generation (src/i18n.py): the Italian
 * table holds the usage and help texts and then one entry per line of a
 * catalog text, each line cut at its first '$' and both halves stripped;
 * `translate` is an exact lookup. Language selection is the same as in
 * pvcheck/i18n.py (`I18n.OnInstall`).
 */
module LegacyI18n {
  import opened Common
  import opened Text
  import opened OrderedMap
  import I18n

  /** One catalog line as a key and its translation: `a[0].strip(), a[2].strip()` of `line.partition('$')`. */
  function ParseLine(line: string): (string, string) {
    var (a, _, b) := Partition(line, '$');
    (Strip(a), Strip(b))
  }

  /** A line cuts at its first '$'; a line without one is all key, with an empty translation. */
  lemma ParseLineShape(line: string)
    ensures '$' !in line ==> ParseLine(line) == (Strip(line), "")
    ensures '$' in line ==>
      exists k :: 0 <= k < |line| && line[k] == '$' && '$' !in line[..k]
        && ParseLine(line) == (Strip(line[..k]), Strip(line[k + 1..]))
  {
    var (a, sep, b) := Partition(line, '$');
    if sep != [] {
      assert line == a + sep + b && line[|a|] == '$' && line[..|a|] == a && line[|a| + 1..] == b;
    }
  }

  /** `dict(pairs)`: a later pair with the same key overrides an earlier one. */
  function Dict<K, V>(pairs: seq<(K, V)>): map<K, V>
    decreases |pairs|
  {
    if pairs == [] then map[]
    else Dict(pairs[..|pairs| - 1])[pairs[|pairs| - 1].0 := pairs[|pairs| - 1].1]
  }

  /** Each line of the catalog text as a key and its translation. */
  function Parsed(lines: seq<string>): (r: seq<(string, string)>)
    ensures |r| == |lines| && forall i :: 0 <= i < |lines| ==> r[i] == ParseLine(lines[i])
  {
    seq(|lines|, i requires 0 <= i < |lines| => ParseLine(lines[i]))
  }

  /** `_translations['it']`: the usage and help entries, updated with one entry per line of the catalog text. */
  function Table(base: map<string, string>, catalog: string): map<string, string> {
    base + Dict(Parsed(SplitLines(catalog)))
  }

  /** Every pair gives a key, and every key comes from a pair. */
  lemma {:induction false} DictKeys<K, V>(pairs: seq<(K, V)>, key: K)
    ensures key in Dict(pairs) <==> exists i :: 0 <= i < |pairs| && pairs[i].0 == key
    decreases |pairs|
  {
    if pairs != [] {
      var n := |pairs| - 1;
      DictKeys(pairs[..n], key);
      if key in Dict(pairs[..n]) {
        var i :| 0 <= i < n && pairs[..n][i].0 == key;
        assert pairs[i] == pairs[..n][i];
      }
      if exists i :: 0 <= i < |pairs| && pairs[i].0 == key {
        var i :| 0 <= i < |pairs| && pairs[i].0 == key;
        if i < n {
          assert pairs[..n][i] == pairs[i];
        }
      }
    }
  }

  /** A key takes the value of the last pair that gives it. */
  lemma {:induction false} DictLast<K, V>(pairs: seq<(K, V)>, i: nat)
    requires i < |pairs|
    requires forall j :: i < j < |pairs| ==> pairs[j].0 != pairs[i].0
    ensures pairs[i].0 in Dict(pairs) && Dict(pairs)[pairs[i].0] == pairs[i].1
    decreases |pairs|
  {
    var n := |pairs| - 1;
    if i < n {
      assert forall j :: i < j < n ==> pairs[..n][j] == pairs[j];
      DictLast(pairs[..n], i);
      assert pairs[..n][i] == pairs[i];
    }
  }

  /**
   * The catalog's entries: a key is in the table exactly when some line
   * gives it, and the last such line decides its translation.
   */
  lemma CatalogEntries(lines: seq<string>, key: string, i: nat)
    requires i < |lines| && ParseLine(lines[i]).0 == key
    requires forall j :: i < j < |lines| ==> ParseLine(lines[j]).0 != key
    ensures key in Dict(Parsed(lines)) && Dict(Parsed(lines))[key] == ParseLine(lines[i]).1
  {
    DictLast(Parsed(lines), i);
  }

  /** A key no line gives is not in the catalog's entries. */
  lemma CatalogMisses(lines: seq<string>, key: string)
    requires forall j :: 0 <= j < |lines| ==> ParseLine(lines[j]).0 != key
    ensures key !in Dict(Parsed(lines))
  {
    DictKeys(Parsed(lines), key);
  }

  /** The usage and help entries stay unless a catalog line gives the same key. */
  lemma TableKeepsBase(base: map<string, string>, catalog: string, key: string)
    requires key in base
    requires forall i :: 0 <= i < |SplitLines(catalog)| ==> ParseLine(SplitLines(catalog)[i]).0 != key
    ensures key in Table(base, catalog) && Table(base, catalog)[key] == base[key]
  {
    CatalogMisses(SplitLines(catalog), key);
  }

  /** `translate` of this generation: the exact entry, or the text recorded as missing. */
  function OnTranslate(c: I18n.Catalog, text: string): (r: (I18n.Catalog, string))
    ensures text in c.strings ==> r == (c, c.strings[text])
    ensures text !in c.strings ==> r == (c.(missing := c.missing + {text}), text)
  {
    if text in c.strings then (c, c.strings[text]) else (c.(missing := c.missing + {text}), text)
  }

  /** Without the last-character retry, a text with a trailing character beyond a key is missing. */
  lemma NoRetry(strings: map<string, string>, key: string, ch: char)
    requires key in strings && key + [ch] !in strings
    ensures I18n.Translated(strings, key + [ch]) == Some(strings[key] + [ch])
    ensures OnTranslate(I18n.Catalog(strings, {}, "it"), key + [ch]).1 == key + [ch]
  {
    assert (key + [ch])[..|key|] == key;
  }

  /** Catalog line 104 as written: its separator is `":` instead of `$`. */
  const GotLine := ", got '%s')\":  ottenuto '%s')"
  /** The same line with the separator the other lines use. */
  const GotLineIntended := ", got '%s') $  ottenuto '%s')"

  /** A line without '$' and without surrounding blanks is a key of its own, with an empty translation. */
  lemma Unseparated(line: string)
    requires '$' !in line && line != [] && !IsSpace(line[0]) && !IsSpace(line[|line| - 1])
    ensures ParseLine(line) == (line, "") && Dict(Parsed([line])) == map[line := ""]
  {
    ParseLineShape(line);
    StripUnchanged(line);
    SingleLine(line);
  }

  /** As written, the line is one key with an empty translation, and ", got '%s')" stays untranslated. */
  lemma GotLineAsWritten()
    ensures Dict(Parsed([GotLine])) == map[GotLine := ""]
    ensures ", got '%s')" !in Dict(Parsed([GotLine]))
  {
    GotLineChars();
    Unseparated(GotLine);
  }

  lemma GotLineChars()
    ensures '$' !in GotLine && GotLine != [] && !IsSpace(GotLine[0]) && !IsSpace(GotLine[|GotLine| - 1])
    ensures GotLine != ", got '%s')"
  {
    assert |GotLine| != |", got '%s')"|;
  }

  /** A line whose first '$' follows `a` parses as the two sides, stripped. */
  lemma ParseAt(a: string, b: string)
    requires '$' !in a
    ensures ParseLine(a + "$" + b) == (Strip(a), Strip(b))
  {
    var line := a + "$" + b;
    assert line == a + ("$" + b);
    IndexOfAfter(a, "$" + b, '$');
    assert line[..|a|] == a && line[|a| + 1..] == b;
  }

  /** Stripping a key followed by blanks gives the key. */
  lemma StripTrailing(key: string, pad: string)
    requires AllSpace(pad) && key != [] && !IsSpace(key[0]) && !IsSpace(key[|key| - 1])
    ensures Strip(key + pad) == key
  {
    RStripOf(key, pad);
    StripUnchanged(key);
  }

  /** Stripping blanks followed by a translation gives the translation. */
  lemma StripLeading(pad: string, t: string)
    requires AllSpace(pad) && t != [] && !IsSpace(t[0]) && !IsSpace(t[|t| - 1])
    ensures Strip(pad + t) == t
  {
    assert pad + t + "" == pad + t;
    RStripOf(pad + t, "");
    LStripOf(pad, t);
  }

  /** A key, a '$' and a translation, each side padded with blanks, give the key and the translation. */
  lemma Separated(key: string, pad1: string, pad2: string, translation: string)
    requires '$' !in key + pad1 && AllSpace(pad1) && AllSpace(pad2)
    requires key != [] && !IsSpace(key[0]) && !IsSpace(key[|key| - 1])
    requires translation != [] && !IsSpace(translation[0]) && !IsSpace(translation[|translation| - 1])
    ensures ParseLine((key + pad1) + "$" + (pad2 + translation)) == (key, translation)
  {
    ParseAt(key + pad1, pad2 + translation);
    StripTrailing(key, pad1);
    StripLeading(pad2, translation);
  }

  /** With the separator, the line gives the entry its Italian text was meant for. */
  lemma GotLineCorrected()
    ensures ParseLine(GotLineIntended) == (", got '%s')", "ottenuto '%s')")
    ensures Dict(Parsed([GotLineIntended])) == map[", got '%s')" := "ottenuto '%s')"]
  {
    var key, translation := ", got '%s')", "ottenuto '%s')";
    IntendedParts(key, translation);
    Separated(key, " ", "  ", translation);
    SingleLine(GotLineIntended);
  }

  lemma IntendedParts(key: string, translation: string)
    requires key == ", got '%s')" && translation == "ottenuto '%s')"
    ensures GotLineIntended == (key + " ") + "$" + ("  " + translation)
    ensures '$' !in key + " " && AllSpace(" ") && AllSpace("  ")
    ensures key != [] && !IsSpace(key[0]) && !IsSpace(key[|key| - 1])
    ensures translation != [] && !IsSpace(translation[0]) && !IsSpace(translation[|translation| - 1])
  {
  }

  /** A catalog of one line is that line's entry. */
  lemma SingleLine(line: string)
    ensures Dict(Parsed([line])) == map[ParseLine(line).0 := ParseLine(line).1]
  {
    var ps := Parsed([line]);
    assert ps == [ps[0]];
    DictOne(ps[0]);
  }

  lemma DictOne<K, V>(p: (K, V))
    ensures Dict([p]) == map[p.0 := p.1]
  {
    assert [p][..0] == [];
  }

  /** Trailing whitespace after a non-space character is exactly what `rstrip` removes. */
  lemma {:induction false} RStripOf(x: string, sp: string)
    requires AllSpace(sp) && (x == [] || !IsSpace(x[|x| - 1]))
    ensures RStrip(x + sp) == x
    decreases |sp|
  {
    if sp == [] {
      assert x + sp == x;
    } else {
      assert (x + sp)[..|x + sp| - 1] == x + sp[..|sp| - 1];
      RStripOf(x, sp[..|sp| - 1]);
    }
  }

  /** `IndexOf` skips a prefix without the character. */
  lemma {:induction false} IndexOfAfter(a: string, b: string, c: char)
    requires c !in a && b != [] && b[0] == c
    ensures IndexOf(a + b, c) == Some(|a|)
    decreases |a|
  {
    if a != [] {
      assert (a + b)[1..] == a[1..] + b;
      IndexOfAfter(a[1..], b, c);
    }
  }

  /** The module's globals of this generation. */
  class LegacyTranslator {
    const translations: seq<(string, map<string, string>)>
    var strings: map<string, string>
    var missing: set<string>
    var lang: string

    function State(): I18n.Catalog
      reads this
    {
      I18n.Catalog(strings, missing, lang)
    }

    /** The globals once the module is imported, `_translations` holding `it` only. */
    constructor(base: map<string, string>, catalog: string, env: Option<string>)
      ensures translations == [("it", Table(base, catalog))]
      ensures State() == I18n.OnInstall(I18n.Catalog(map[], {}, "en"), translations, env)
    {
      translations := [("it", Table(base, catalog))];
      strings := map[];
      missing := {};
      lang := "en";
      new;
      InstallLang(env);
    }

    /** `_install_lang`, as in the newer generation. */
    method InstallLang(env: Option<string>)
      modifies this
      ensures State() == I18n.OnInstall(old(State()), translations, env)
    {
      var name := if env.Some? then env.value else "en";
      lang := Partition(name, '_').0;
      var t := Get(translations, lang);
      if t.Some? {
        strings := t.value;
      } else {
        lang := "en";
        if translations != [] {
          strings := map k | k in translations[0].1 :: k;
        }
      }
    }

    method Translate(text: string) returns (r: string)
      modifies this
      ensures (State(), r) == OnTranslate(old(State()), text)
    {
      if text in strings {
        return strings[text];
      }
      missing := missing + {text};
      r := text;
    }
  }
}
