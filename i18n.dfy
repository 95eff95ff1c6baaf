/**
 * Message translation (pvcheck/i18n.py). The module's globals (the
 * current table `_strings`, the set of texts found without a translation,
 * and the language) are the fields of a `Translator`; the table of tables
 * `_translations` is an insertion-ordered dictionary from a language to its
 * English -> translation table, given to the constructor; the `LANG`
 * variable of the environment is a parameter.
 */
module I18n {
  import opened Common
  import opened Text
  import opened OrderedMap

  /** The module's globals as a value. */
  datatype Catalog = Catalog(strings: map<string, string>, missing: set<string>, lang: string)

  /**
   * The lookup `translate` makes: the text's own entry; otherwise, for a
   * non-empty text, the entry of the text without its last character
   * followed by that character; otherwise nothing (the empty text's only
   * candidate key is itself, so a failed first lookup fails again).
   */
  function Translated(strings: map<string, string>, text: string): (r: Option<string>)
    ensures text in strings ==> r == Some(strings[text])
    ensures r.None? <==> text !in strings && (text == [] || text[..|text| - 1] !in strings)
    ensures text !in strings && r.Some? ==>
      r.value == strings[text[..|text| - 1]] + [text[|text| - 1]]
  {
    if text in strings then Some(strings[text])
    else if text != [] && text[..|text| - 1] in strings then Some(strings[text[..|text| - 1]] + [text[|text| - 1]])
    else None
  }

  /** `translate(text)`: the translation, or the text itself recorded as missing. */
  function OnTranslate(c: Catalog, text: string): (Catalog, string) {
    match Translated(c.strings, text)
    case Some(t) => (c, t)
    case None => (c.(missing := c.missing + {text}), text)
  }

  /**
   * `register_translation`: the translation is stored when `language` is
   * the current one, the English text itself when the current language is
   * "en", and nothing otherwise.
   */
  function OnRegister(c: Catalog, english: string, language: string, translation: string): Catalog {
    if c.lang == language then c.(strings := c.strings[english := translation])
    else if c.lang == "en" then c.(strings := c.strings[english := english])
    else c
  }

  /** The map of each key of `t` to itself. */
  function Identity(t: map<string, string>): (r: map<string, string>)
    ensures r.Keys == t.Keys && forall k :: k in r ==> r[k] == k
  {
    map k | k in t :: k
  }

  /**
   * `_install_lang`: the language is `LANG` (or "en") up to its first '_';
   * its table when it has one; otherwise "en", with the identity over the
   * keys of the first table, the table staying as it was when there is none.
   */
  function OnInstall(c: Catalog, translations: seq<(string, map<string, string>)>, env: Option<string>): (r: Catalog)
    ensures r.missing == c.missing
    ensures '_' !in r.lang
    ensures r.lang == "en" || r.lang in Keys(translations)
  {
    var lang := Partition(if env.Some? then env.value else "en", '_').0;
    match Get(translations, lang)
    case Some(t) => c.(strings := t, lang := lang)
    case None =>
      if translations == [] then c.(lang := "en")
      else c.(strings := Identity(translations[0].1), lang := "en")
  }

  /** With an identity table, `translate` gives back every text, found or not. */
  lemma IdentityTranslates(strings: map<string, string>, text: string)
    requires forall k :: k in strings ==> strings[k] == k
    ensures Translated(strings, text).None? || Translated(strings, text) == Some(text)
  {
    if text !in strings && text != [] && text[..|text| - 1] in strings {
      assert text == text[..|text| - 1] + [text[|text| - 1]];
    }
  }

  /**
   * A language without a table falls back to English: every text then
   * translates to itself, and the keys of the first table are all found.
   */
  lemma UnknownLanguageIsIdentity(c: Catalog, translations: seq<(string, map<string, string>)>,
                                  env: Option<string>, text: string)
    requires translations != []
    requires Get(translations, Partition(if env.Some? then env.value else "en", '_').0).None?
    ensures var r := OnInstall(c, translations, env);
      r.lang == "en" && OnTranslate(r, text).1 == text
      && (text in translations[0].1 ==> OnTranslate(r, text).0 == r)
  {
    var r := OnInstall(c, translations, env);
    IdentityTranslates(r.strings, text);
  }

  /** A translation registered for the current language is what `translate` then returns, and nothing goes missing. */
  lemma RegisteredIsTranslated(c: Catalog, english: string, translation: string)
    ensures var r := OnRegister(c, english, c.lang, translation);
      OnTranslate(r, english) == (r, translation)
  {
  }

  /** Registering under another language changes the table only for English, and only by the identity entry. */
  lemma RegisteredElsewhere(c: Catalog, english: string, language: string, translation: string)
    requires language != c.lang
    ensures var r := OnRegister(c, english, language, translation);
      (c.lang == "en" ==> OnTranslate(r, english) == (r, english))
      && (c.lang != "en" ==> r == c)
  {
  }

  /** `translate` records at most the text itself, and returns the text whenever it records it. */
  lemma TranslateMissing(c: Catalog, text: string)
    ensures var (r, t) := OnTranslate(c, text);
      r.strings == c.strings && r.lang == c.lang
      && (r.missing == c.missing || (r.missing == c.missing + {text} && t == text))
      && (text in c.strings ==> r == c && t == c.strings[text])
  {
  }

  /** The module's globals and the table of tables. */
  class Translator {
    const translations: seq<(string, map<string, string>)>
    var strings: map<string, string>
    var missing: set<string>
    var lang: string

    function State(): Catalog
      reads this
    {
      Catalog(strings, missing, lang)
    }

    /** The globals as the module leaves them once imported: empty, "en", then `_install_lang()`. */
    constructor(translations: seq<(string, map<string, string>)>, env: Option<string>)
      ensures this.translations == translations
      ensures State() == OnInstall(Catalog(map[], {}, "en"), translations, env)
    {
      this.translations := translations;
      strings := map[];
      missing := {};
      lang := "en";
      new;
      InstallLang(env);
    }

    method InstallLang(env: Option<string>)
      modifies this
      ensures State() == OnInstall(old(State()), translations, env)
    {
      var name := if env.Some? then env.value else "en";
      lang := Partition(name, '_').0;
      var t := Get(translations, lang);
      if t.Some? {
        strings := t.value;
      } else {
        lang := "en";
        if translations != [] {
          strings := map k | k in translations[0].1 :: k;
        }
      }
    }

    method Translate(text: string) returns (r: string)
      modifies this
      ensures (State(), r) == OnTranslate(old(State()), text)
    {
      if text in strings {
        return strings[text];
      }
      if text != [] && text[..|text| - 1] in strings {
        return strings[text[..|text| - 1]] + [text[|text| - 1]];
      }
      missing := missing + {text};
      r := text;
    }

    method RegisterTranslation(english: string, language: string, translation: string)
      modifies this
      ensures State() == OnRegister(old(State()), english, language, translation)
    {
      if lang == language {
        strings := strings[english := translation];
      } else if lang == "en" {
        strings := strings[english := english];
      }
    }
  }
}
