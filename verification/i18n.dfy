/**
 * The client's translation lookup (client/src/lib/i18n.ts): the supported languages and
 * `translate`, which reads a `section.subKey` key in a three-level table, falls back to English,
 * and otherwise returns the key itself.
 */
module I18n {
  import opened Wrappers
  import opened Text
  import opened Schema

  /** An entry of `availableLanguages`; the flag image URL is not modelled. */
  datatype LanguageOption = LanguageOption(code: string, name: string, shortName: string)

  const AvailableLanguages: seq<LanguageOption> := [
    LanguageOption("en", "English", "EN"),
    LanguageOption("fr", "Français", "FR"),
    LanguageOption("sw", "Kiswahili", "SW")
  ]

  /** `availableLanguages.some(lang => lang.code === code)`. */
  predicate Supported(code: string) {
    exists i :: 0 <= i < |AvailableLanguages| && AvailableLanguages[i].code == code
  }

  /** The client offers exactly the languages of the `language` column, under the same codes. */
  lemma SupportedAreSchemaLanguages(code: string, l: Language)
    ensures Supported(code) <==> ParseLanguage(code).Some?
    ensures Supported(LanguageLabel(l))
  {
    if ParseLanguage(code).Some? {
      assert AvailableLanguages[if code == "en" then 0 else if code == "fr" then 1 else 2].code == code;
    }
    assert AvailableLanguages[match l case En => 0 case Fr => 1 case Sw => 2].code == LanguageLabel(l);
  }

  /** The translation table: language code, then section, then key within the section. */
  type Translations = map<string, map<string, map<string, string>>>

  /** `t[language][section][subKey]` when every level exists and the entry is non-empty (truthy). */
  function Entry(t: Translations, language: string, section: string, subKey: string): (e: Option<string>)
    ensures e.Some? <==> (language in t && section in t[language] && subKey in t[language][section]
                          && t[language][section][subKey] != "")
    ensures e.Some? ==> e.value == t[language][section][subKey]
  {
    if language in t && section in t[language] && subKey in t[language][section]
       && t[language][section][subKey] != ""
    then Some(t[language][section][subKey])
    else None
  }

  /** `translate(language, key)`. */
  function Translate(t: Translations, language: string, key: string): (r: string)
    ensures |Split(key, '.')| != 2 ==> r == key
    ensures |Split(key, '.')| == 2 ==>
      var section := Split(key, '.')[0];
      var subKey := Split(key, '.')[1];
      && (Entry(t, language, section, subKey).Some? ==> r == Entry(t, language, section, subKey).value)
      && (Entry(t, language, section, subKey).None? && Entry(t, "en", section, subKey).Some?
          ==> r == Entry(t, "en", section, subKey).value)
      && (Entry(t, language, section, subKey).None? && Entry(t, "en", section, subKey).None? ==> r == key)
  {
    var parts := Split(key, '.');
    if |parts| != 2 then key
    else
      match Entry(t, language, parts[0], parts[1])
      case Some(e) => e
      case None =>
        match Entry(t, "en", parts[0], parts[1])
        case Some(e) => e
        case None => key
  }

  /** A language the table does not have translates exactly as English does. */
  lemma MissingLanguageIsEnglish(t: Translations, language: string, key: string)
    requires language !in t
    ensures Translate(t, language, key) == Translate(t, "en", key)
  {
  }

  /**
   * The result is the key itself, or a non-empty entry stored under the key's section and
   * subKey in the requested language or in English.
   */
  lemma TranslateIsKeyOrEntry(t: Translations, language: string, key: string)
    ensures var r := Translate(t, language, key);
      || r == key
      || (&& |Split(key, '.')| == 2 && r != ""
          && (|| Entry(t, language, Split(key, '.')[0], Split(key, '.')[1]) == Some(r)
              || Entry(t, "en", Split(key, '.')[0], Split(key, '.')[1]) == Some(r)))
  {
  }

  /** A key splits into exactly two parts when it holds exactly one dot. */
  lemma TwoPartsIffOneDot(key: string)
    ensures |Split(key, '.')| == 2 <==> Count(key, '.') == 1
  {
    SplitLength(key, '.');
  }

  /** A key with no dot, or with more than one, comes back unchanged whatever the table holds. */
  lemma MalformedKeyUnchanged(t: Translations, language: string, key: string)
    requires Count(key, '.') != 1
    ensures Translate(t, language, key) == key
  {
    TwoPartsIffOneDot(key);
  }

  /** `section.subKey` is split back into the section and the subKey when neither holds a dot. */
  lemma {:induction false} KeyOfParts(section: string, subKey: string)
    requires '.' !in section && '.' !in subKey
    ensures Split(section + "." + subKey, '.') == [section, subKey]
  {
    var parts := [section, subKey];
    assert Join(parts, '.') == section + "." + subKey by {
      assert Join(parts[1..], '.') == subKey;
    }
    SplitJoin(parts, '.');
  }

  /** Looking up `section.subKey` finds the entry stored in the requested language. */
  lemma TranslateFindsEntry(t: Translations, language: string, section: string, subKey: string)
    requires '.' !in section && '.' !in subKey
    requires Entry(t, language, section, subKey).Some?
    ensures Translate(t, language, section + "." + subKey) == t[language][section][subKey]
  {
    KeyOfParts(section, subKey);
  }
}
