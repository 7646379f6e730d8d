/**
 * The form-builder options service: it resolves the language pack for the application's
 * locale, keeps the last pack in a single-slot cache, and remembers the URLs whose
 * requests failed so that it never requests them again.
 *
 * The service's two mutable fields become an immutable `State` threaded through pure
 * step functions. The HTTP client becomes a `Network`: a URL in its domain answers with
 * that language pack, a URL outside it fails. Every step reports the URLs it requested,
 * in order, so that the number of requests can be stated.
 */
module FormBuilderOptions {
  import opened Wrappers
  import opened LocaleCode
  import opened TranslationUrl

  /** Localised strings of one locale or language code, by message key. */
  type Bundle = map<string, string>

  /** The `i18n` option: bundles by locale or language code. */
  type I18n = map<string, Bundle>

  /** Answer of the translation server: the body returned for each URL that succeeds. */
  type Network = map<string, I18n>

  /** The cached language pack: a form-builder options object holding only `i18n`. */
  datatype Translations = Translations(i18n: Option<I18n>)

  /** The options handed to the form builder: its `language` and `i18n` fields. */
  datatype I18nOptions = I18nOptions(language: Option<string>, i18n: Option<I18n>)

  /** The service's fields: the single-slot pack cache and the append-only invalid URL list. */
  datatype State = State(cachedLanguagePack: Option<Translations>, invalidUrls: seq<string>)

  /** Outcome of one load: the new invalid list, the pack if a request answered, the URLs requested. */
  datatype Loaded = Loaded(invalidUrls: seq<string>, pack: Option<I18n>, fetched: seq<string>)

  /** Outcome of one service call: the new state, the emitted value, the URLs requested. */
  datatype Step<T> = Step(state: State, value: T, fetched: seq<string>)

  /** A freshly constructed service: nothing cached, no invalid URL. */
  const InitialState: State := State(None, [])

  /** One GET request: the body on success, `None` when the request fails. */
  function Fetch(net: Network, url: string): (r: Option<I18n>)
    ensures r.Some? <==> url in net
    ensures r.Some? ==> r.value == net[url]
  {
    if url in net then Some(net[url]) else None
  }

  /** The requested URLs that failed, in request order. */
  function Failed(urls: seq<string>, net: Network): (r: seq<string>)
    ensures |r| <= |urls|
    ensures forall u :: u in r <==> u in urls && u !in net
  {
    if urls == [] then []
    else (if urls[0] in net then [] else [urls[0]]) + Failed(urls[1..], net)
  }

  /** The last request of `fetched` succeeded. */
  predicate Answered(fetched: seq<string>, net: Network) {
    fetched != [] && fetched[|fetched| - 1] in net
  }

  /** The body returned by the last request of `fetched`. */
  function Answer(fetched: seq<string>, net: Network): (pack: I18n)
    requires Answered(fetched, net)
  {
    net[fetched[|fetched| - 1]]
  }

  // ---------------------------------------------------------------------------
  // Cache-hit predicate
  // ---------------------------------------------------------------------------

  /**
   * `containsLocale`: whether `translations` already holds a bundle for `locale`, or,
   * when `satisfiedWithLanguageCode` is set, for the locale's language code.
   */
  function ContainsLocale(translations: Option<Translations>, locale: string, satisfiedWithLanguageCode: bool): (r: bool)
    ensures locale == "" || translations.None? || translations.value.i18n.None? ==> !r
    ensures r ==> translations.Some? && translations.value.i18n.Some?
    ensures translations.Some? && translations.value.i18n.Some? ==>
      var i18n := translations.value.i18n.value;
      && (locale != "" && locale in i18n ==> r)
      && (satisfiedWithLanguageCode && GetLanguageCode(locale).Some? && GetLanguageCode(locale).value in i18n ==> r)
      && (r ==> locale in i18n || (satisfiedWithLanguageCode && GetLanguageCode(locale).Some? && GetLanguageCode(locale).value in i18n))
  {
    if locale != "" && translations.Some? && translations.value.i18n.Some? then
      var i18n := translations.value.i18n.value;
      if locale in i18n then true
      else if satisfiedWithLanguageCode then
        var languageCode := GetLanguageCode(locale);
        languageCode.Some? && languageCode.value in i18n
      else false
    else false
  }

  // ---------------------------------------------------------------------------
  // URL selection
  // ---------------------------------------------------------------------------

  /** The locale-specific translation file, requested only when the locale is not its own language code. */
  function LocaleUrl(locale: string): (r: Option<string>)
    ensures r.Some? <==> locale != "" && GetLanguageCode(locale) != Some(locale)
    ensures r.Some? ==> IsTranslationFileUrl(r.value) && TokenOf(r.value) == locale
  {
    if locale != "" && GetLanguageCode(locale) != Some(locale) then TranslationFileUrl(Some(locale)) else None
  }

  /** The translation file of the locale's language code. */
  function LanguageCodeUrl(locale: string): (r: Option<string>)
    ensures r.Some? <==> GetLanguageCode(locale).Some?
    ensures r.Some? ==> IsTranslationFileUrl(r.value) && TokenOf(r.value) == GetLanguageCode(locale).value
  {
    TranslationFileUrl(GetLanguageCode(locale))
  }

  /** The URL requested first: the locale file if there is one, else the language-code file. */
  function Candidate(locale: string): (r: Option<string>)
    ensures LocaleUrl(locale).Some? ==> r == LocaleUrl(locale)
    ensures LocaleUrl(locale).None? ==> r == LanguageCodeUrl(locale)
  {
    LocaleUrl(locale).OrElse(LanguageCodeUrl(locale))
  }

  /** The first URL, validated only after it has been chosen. */
  function PreferredUrl(locale: string, invalidUrls: seq<string>): (r: Option<string>)
    ensures r.Some? <==> Candidate(locale).Some? && Candidate(locale).value !in invalidUrls
    ensures r.Some? ==> r == Candidate(locale)
  {
    ValidateUrlOrNull(invalidUrls, Candidate(locale))
  }

  /** The second URL: the language-code file when it was valid before any request. */
  function FallbackUrl(locale: string, invalidUrls: seq<string>): (r: Option<string>)
    ensures r.Some? <==> LanguageCodeUrl(locale).Some? && LanguageCodeUrl(locale).value !in invalidUrls
    ensures r.Some? ==> r == LanguageCodeUrl(locale)
  {
    ValidateUrlOrNull(invalidUrls, LanguageCodeUrl(locale))
  }

  // ---------------------------------------------------------------------------
  // Loader
  // ---------------------------------------------------------------------------

  /**
   * `loadLanguagePack`: request the preferred URL, and on failure record it as invalid
   * and request the fallback URL, whose failure is recorded too. Failures never escape.
   */
  function LoadLanguagePack(locale: string, invalidUrls: seq<string>, net: Network): (r: Loaded)
    // at most two requests, never of a URL already recorded as invalid
    ensures |r.fetched| <= 2
    ensures forall u :: u in r.fetched ==> u !in invalidUrls
    // the invalid list grows by exactly the failed requests, in order
    ensures r.invalidUrls == invalidUrls + Failed(r.fetched, net)
    // the pack is the answer of the last request, if that request succeeded
    ensures r.pack.Some? <==> Answered(r.fetched, net)
    ensures r.pack.Some? ==> r.pack.value == Answer(r.fetched, net)
    // which URLs are requested
    ensures r.fetched == [] <==> PreferredUrl(locale, invalidUrls).None?
    ensures r.fetched != [] ==> r.fetched[0] == PreferredUrl(locale, invalidUrls).value
    ensures |r.fetched| == 2 <==>
      r.fetched != [] && r.fetched[0] !in net && FallbackUrl(locale, invalidUrls).Some?
    ensures |r.fetched| == 2 ==> r.fetched[1] == FallbackUrl(locale, invalidUrls).value
  {
    if locale == "" then Loaded(invalidUrls, None, [])
    else
      var url := PreferredUrl(locale, invalidUrls);
      var fallbackUrl := FallbackUrl(locale, invalidUrls);
      if url.None? then Loaded(invalidUrls, None, [])
      else match Fetch(net, url.value)
        case Some(pack) => Loaded(invalidUrls, Some(pack), [url.value])
        case None =>
          var afterFirst := invalidUrls + [url.value];
          if fallbackUrl.None? then Loaded(afterFirst, None, [url.value])
          else match Fetch(net, fallbackUrl.value)
            case Some(pack) => Loaded(afterFirst, Some(pack), [url.value, fallbackUrl.value])
            case None => Loaded(afterFirst + [fallbackUrl.value], None, [url.value, fallbackUrl.value])
  }

  /**
   * `getFormBuilderLanguagePack`: the cached pack when it covers the locale or its
   * language code; otherwise a fresh load, whose pack (or an empty one) replaces the cache.
   */
  function GetFormBuilderLanguagePack(locale: string, st: State, net: Network): (r: Step<Translations>)
    ensures ContainsLocale(st.cachedLanguagePack, locale, true) ==>
      r.fetched == [] && r.state == st && Some(r.value) == st.cachedLanguagePack
    ensures !ContainsLocale(st.cachedLanguagePack, locale, true) ==>
      var loaded := LoadLanguagePack(locale, st.invalidUrls, net);
      && r.fetched == loaded.fetched
      && r.value == Translations(Some(loaded.pack.GetOr(map[])))
      && r.state == State(Some(r.value), loaded.invalidUrls)
  {
    if ContainsLocale(st.cachedLanguagePack, locale, true) then
      Step(st, st.cachedLanguagePack.value, [])
    else
      var loaded := LoadLanguagePack(locale, st.invalidUrls, net);
      var pack := Translations(Some(loaded.pack.GetOr(map[])));
      Step(State(Some(pack), loaded.invalidUrls), pack, loaded.fetched)
  }

  /**
   * `getI18nOptions`: the locale's language code merged with the language pack.
   */
  function GetI18nOptions(locale: string, st: State, net: Network): (r: Step<I18nOptions>)
    ensures r.value.language == GetLanguageCode(locale)
    ensures r.value.i18n.Some?
    ensures r.state.cachedLanguagePack.Some? && r.state.cachedLanguagePack.value.i18n.Some?
    ensures |r.fetched| <= 2
    ensures forall u :: u in r.fetched ==> u !in st.invalidUrls
    ensures r.state.invalidUrls == st.invalidUrls + Failed(r.fetched, net)
    // cache hit: no request, nothing changes, the cached bundles are returned
    ensures ContainsLocale(st.cachedLanguagePack, locale, true) ==>
      r.fetched == [] && r.state == st && r.value.i18n == st.cachedLanguagePack.value.i18n
    // cache miss: the cache is overwritten with what is returned
    ensures !ContainsLocale(st.cachedLanguagePack, locale, true) ==>
      r.state.cachedLanguagePack == Some(Translations(r.value.i18n))
    ensures !ContainsLocale(st.cachedLanguagePack, locale, true) ==>
      r.value.i18n == Some(if Answered(r.fetched, net) then Answer(r.fetched, net) else map[])
  {
    var languageCode := GetLanguageCode(locale);
    var pack := GetFormBuilderLanguagePack(locale, st, net);
    Step(pack.state, I18nOptions(languageCode, pack.value.i18n), pack.fetched)
  }
}
