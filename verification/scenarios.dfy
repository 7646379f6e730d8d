/**
 * Concrete runs of the form-builder options service: the locale examples of the parser's
 * documentation, the application's configured locale `de`, and a `de-DE` run whose
 * locale file is missing.
 */
module Scenarios {
  import opened Wrappers
  import opened LocaleCode
  import opened TranslationUrl
  import opened FormBuilderOptions
  import opened FormBuilderOptionsProperties

  /** The locale configured for the application. */
  const AppLocale: string := "de"

  const DeUrl: string := "assets/formio/builder/i18n/de.json"
  const DeDeUrl: string := "assets/formio/builder/i18n/de-DE.json"

  /** The German bundles served for the language code `de`. */
  const GermanPack: I18n := map["de" := map["Placeholder" := "Platzhalter"]]

  /** A server that knows only the language-code file `de.json`. */
  const GermanOnly: Network := map[DeUrl := GermanPack]

  lemma CodeOfEn() ensures GetLanguageCode("en") == Some("en") {
    assert MatchesWithCode("en", "en");
    GetLanguageCodeMatchesPattern("en", "en");
  }

  lemma CodeOfEnUs() ensures GetLanguageCode("en-US") == Some("en") {
    assert "en-US"[2..] == "-US" && "-US"[1..1 + 2] == "US";
    assert MatchesWithCode("en-US", "en");
    GetLanguageCodeMatchesPattern("en-US", "en");
  }

  lemma CodeOfFilPh() ensures GetLanguageCode("fil-PH") == Some("fil") {
    assert "fil-PH"[3..] == "-PH" && "-PH"[1..1 + 2] == "PH";
    assert MatchesWithCode("fil-PH", "fil");
    GetLanguageCodeMatchesPattern("fil-PH", "fil");
  }

  /** Region first, then script: the order the expression accepts. */
  lemma CodeOfSrRsLatn() ensures GetLanguageCode("sr-RS-Latn") == Some("sr") {
    assert "sr-RS-Latn"[2..] == "-RS-Latn" && "-RS-Latn"[1..1 + 2] == "RS";
    assert "-RS-Latn"[3..] == "-Latn" && "-Latn"[1..] == "Latn";
    assert MatchesWithCode("sr-RS-Latn", "sr");
    GetLanguageCodeMatchesPattern("sr-RS-Latn", "sr");
  }

  lemma CodeOfE() ensures GetLanguageCode("E") == None {
  }

  /** Script before region, the order of BCP 47 tags, is rejected by the expression. */
  lemma CodeOfAzCyrlAz() ensures GetLanguageCode("az-Cyrl-AZ") == None {
  }

  lemma CodeOfDeDe() ensures GetLanguageCode("de-DE") == Some("de") {
    assert "de-DE"[2..] == "-DE" && "-DE"[1..1 + 2] == "DE";
    assert MatchesWithCode("de-DE", "de");
    GetLanguageCodeMatchesPattern("de-DE", "de");
  }

  /** The URLs chosen for `de-DE` before any request. */
  lemma GermanRegionUrls()
    ensures LocaleUrl("de-DE") == Some(DeDeUrl)
    ensures LanguageCodeUrl("de-DE") == Some(DeUrl)
    ensures Candidate("de-DE") == Some(DeDeUrl)
  {
    CodeOfDeDe();
    assert BaseUrl + "de-DE" + Extension == DeDeUrl;
    assert TranslationFileUrl(Some("de-DE")) == Some(DeDeUrl);
    assert BaseUrl + "de" + Extension == DeUrl;
    assert TranslationFileUrl(Some("de")) == Some(DeUrl);
  }

  /**
   * `de-DE` on a fresh service whose server lacks `de-DE.json`: the locale file fails and
   * is recorded, the language-code file answers and is cached, and a repeat call is a
   * cache hit with no request.
   */
  lemma GermanRegionFallsBackToLanguageCode()
    ensures var r := GetI18nOptions("de-DE", InitialState, GermanOnly);
      && r.fetched == [DeDeUrl, DeUrl]
      && r.value == I18nOptions(Some("de"), Some(GermanPack))
      && r.state == State(Some(Translations(Some(GermanPack))), [DeDeUrl])
    ensures var r := GetI18nOptions("de-DE", InitialState, GermanOnly);
      var again := GetI18nOptions("de-DE", r.state, map[]);
      again.fetched == [] && again.value == r.value
  {
    CodeOfDeDe();
    GermanRegionUrls();
    assert DeDeUrl !in GermanOnly && DeUrl in GermanOnly;
    var loaded := LoadLanguagePack("de-DE", [], GermanOnly);
    assert loaded.fetched == [DeDeUrl, DeUrl];
    assert Failed([DeDeUrl, DeUrl], GermanOnly) == [DeDeUrl];
    var r := GetI18nOptions("de-DE", InitialState, GermanOnly);
    assert ContainsLocale(r.state.cachedLanguagePack, "de-DE", true);
  }

  /**
   * With `de-DE.json` recorded as invalid and `de.json` still valid and available,
   * nothing is requested and the bundles come back empty.
   */
  lemma BlacklistedRegionFileHidesValidLanguageFile()
    ensures var st := State(None, [DeDeUrl]);
      var r := GetI18nOptions("de-DE", st, GermanOnly);
      && FallbackUrl("de-DE", st.invalidUrls) == Some(DeUrl)
      && r.fetched == []
      && r.value == I18nOptions(Some("de"), Some(map[]))
  {
    CodeOfDeDe();
    GermanRegionUrls();
    BlockedCandidateFetchesNothing("de-DE", State(None, [DeDeUrl]), GermanOnly);
  }

  /**
   * The configured locale `de` when its file is missing: the same URL is requested twice
   * and recorded twice, and a repeat call requests nothing and returns empty bundles.
   */
  lemma AppLocaleWithoutTranslationFile()
    ensures var r := GetI18nOptions(AppLocale, InitialState, map[]);
      && r.fetched == [DeUrl, DeUrl]
      && r.state.invalidUrls == [DeUrl, DeUrl]
      && r.value == I18nOptions(Some("de"), Some(map[]))
    ensures var r := GetI18nOptions(AppLocale, InitialState, map[]);
      GetI18nOptions(AppLocale, r.state, GermanOnly).fetched == []
  {
    assert All(AppLocale, IsLower);
    BareLanguageCode(AppLocale);
    assert BaseUrl + AppLocale + Extension == DeUrl;
    assert TranslationFileUrl(Some(AppLocale)) == Some(DeUrl);
    BareLanguageCodeIsFetchedTwice(AppLocale, [], map[]);
    FailedPreferredSilencesNextCall(AppLocale, InitialState, map[], GermanOnly);
  }
}
