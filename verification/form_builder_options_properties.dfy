/**
 * Properties of the form-builder options service that relate several calls, or that
 * single out the consequences of the order in which the loader selects and validates
 * its URLs.
 */
module FormBuilderOptionsProperties {
  import opened Wrappers
  import opened LocaleCode
  import opened TranslationUrl
  import opened FormBuilderOptions

  /** A pack that covers the locale itself also covers it when the language code suffices. */
  lemma ContainsLocaleWithoutFlagImpliesWithFlag(translations: Option<Translations>, locale: string)
    ensures ContainsLocale(translations, locale, false) ==> ContainsLocale(translations, locale, true)
  {
  }

  /**
   * The preferred URL is validated after it has been chosen: once the locale file is
   * recorded as invalid, nothing is requested, even when the language-code file is valid.
   */
  lemma BlacklistedLocaleUrlSuppressesFetch(locale: string, invalidUrls: seq<string>, net: Network)
    requires LocaleUrl(locale).Some? && LocaleUrl(locale).value in invalidUrls
    ensures LoadLanguagePack(locale, invalidUrls, net) == Loaded(invalidUrls, None, [])
  {
  }

  /**
   * For a locale that is a bare language code the preferred and fallback URLs coincide:
   * when its file fails it is requested twice and recorded twice.
   */
  lemma BareLanguageCodeIsFetchedTwice(locale: string, invalidUrls: seq<string>, net: Network)
    requires 2 <= |locale| <= 3 && All(locale, IsLower)
    requires TranslationFileUrl(Some(locale)).value !in invalidUrls
    requires TranslationFileUrl(Some(locale)).value !in net
    ensures var url := TranslationFileUrl(Some(locale)).value;
      LoadLanguagePack(locale, invalidUrls, net) == Loaded(invalidUrls + [url, url], None, [url, url])
  {
    BareLanguageCode(locale);
    var url := TranslationFileUrl(Some(locale)).value;
    assert Candidate(locale) == Some(url);
    assert Failed([url, url], net) == [url, url];
  }

  /** The first URL of a call is recorded as invalid whenever it fails. */
  lemma FailedPreferredIsRecorded(locale: string, st: State, net: Network)
    requires var r := GetI18nOptions(locale, st, net); r.fetched != [] && r.fetched[0] !in net
    ensures var r := GetI18nOptions(locale, st, net);
      Candidate(locale) == Some(r.fetched[0]) && r.fetched[0] in r.state.invalidUrls
  {
  }

  /** A call whose candidate URL is recorded as invalid requests nothing, whatever the cache holds. */
  lemma BlockedCandidateFetchesNothing(locale: string, st: State, net: Network)
    requires Candidate(locale).Some? && Candidate(locale).value in st.invalidUrls
    ensures var r := GetI18nOptions(locale, st, net);
      r.fetched == [] && r.state.invalidUrls == st.invalidUrls
  {
  }

  /**
   * Once the first URL of a call has failed, the next call for the same locale requests
   * nothing, whatever the network then answers: either the pack just cached covers the
   * locale, or the first URL is now invalid and suppresses the fallback as well.
   */
  lemma FailedPreferredSilencesNextCall(locale: string, st: State, net: Network, net': Network)
    requires var r := GetI18nOptions(locale, st, net); r.fetched != [] && r.fetched[0] !in net
    ensures GetI18nOptions(locale, GetI18nOptions(locale, st, net).state, net').fetched == []
  {
  }

  /**
   * After every request of a call has failed, a repeat call requests nothing, changes
   * nothing and returns the language code with empty bundles.
   */
  lemma AllFailedRepeatIsEmpty(locale: string, st: State, net: Network, net': Network)
    requires var r := GetI18nOptions(locale, st, net); r.fetched != [] && Failed(r.fetched, net) == r.fetched
    ensures var first := GetI18nOptions(locale, st, net);
      var again := GetI18nOptions(locale, first.state, net');
      && again.fetched == []
      && again.state == first.state
      && again.value == I18nOptions(GetLanguageCode(locale), Some(map[]))
  {
  }

  // ---------------------------------------------------------------------------
  // A sequence of calls on one service instance
  // ---------------------------------------------------------------------------

  /** Outcome of successive calls: the final state, and each call's value and requested URLs. */
  datatype Calls = Calls(state: State, values: seq<I18nOptions>, traces: seq<seq<string>>)

  /**
   * Successive calls of `getI18nOptions` on one service, the `k`-th one answered by
   * `nets[k]`: the final state, and the value emitted and URLs requested by each call.
   */
  function Session(locale: string, st: State, nets: seq<Network>): (r: Calls)
    ensures |r.values| == |nets| && |r.traces| == |nets|
    ensures forall k :: 0 <= k < |r.traces| ==> |r.traces[k]| <= 2
    ensures forall k :: 0 <= k < |r.values| ==> r.values[k].language == GetLanguageCode(locale)
    ensures st.invalidUrls <= r.state.invalidUrls
    decreases |nets|
  {
    if nets == [] then Calls(st, [], [])
    else
      var first := GetI18nOptions(locale, st, nets[0]);
      var rest := Session(locale, first.state, nets[1..]);
      Calls(rest.state, [first.value] + rest.values, [first.fetched] + rest.traces)
  }

  /** Once the candidate URL is recorded as invalid, no later call of the session requests anything. */
  lemma {:induction false} BlockedCandidateSilencesSession(locale: string, st: State, nets: seq<Network>)
    requires Candidate(locale).Some? && Candidate(locale).value in st.invalidUrls
    ensures forall k :: 0 <= k < |nets| ==> Session(locale, st, nets).traces[k] == []
    ensures Session(locale, st, nets).state.invalidUrls == st.invalidUrls
    decreases |nets|
  {
    if nets != [] {
      var first := GetI18nOptions(locale, st, nets[0]);
      BlockedCandidateFetchesNothing(locale, st, nets[0]);
      BlockedCandidateSilencesSession(locale, first.state, nets[1..]);
    }
  }

  /**
   * A session of any length whose first call saw its first URL fail makes no request
   * after that first call.
   */
  lemma FailedPreferredSilencesSession(locale: string, st: State, nets: seq<Network>)
    requires nets != []
    requires var r := GetI18nOptions(locale, st, nets[0]); r.fetched != [] && r.fetched[0] !in nets[0]
    ensures Session(locale, st, nets).traces[0] == GetI18nOptions(locale, st, nets[0]).fetched
    ensures forall k :: 1 <= k < |nets| ==> Session(locale, st, nets).traces[k] == []
  {
    var first := GetI18nOptions(locale, st, nets[0]);
    FailedPreferredIsRecorded(locale, st, nets[0]);
    BlockedCandidateSilencesSession(locale, first.state, nets[1..]);
  }
}
