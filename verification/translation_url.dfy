/**
 * The URL helpers of the form-builder options service: the location of a translation
 * file, and the check of a URL against the list of URLs whose requests failed before.
 */
module TranslationUrl {
  import opened Wrappers

  const BaseUrl: string := "assets/formio/builder/i18n/"
  const Extension: string := ".json"

  /** `url` has the shape `<BaseUrl><token>.json` with a non-empty token. */
  predicate IsTranslationFileUrl(url: string) {
    && |BaseUrl| + |Extension| < |url|
    && url[..|BaseUrl|] == BaseUrl
    && url[|url| - |Extension|..] == Extension
  }

  /** The locale or language code a translation file URL was built from. */
  function TokenOf(url: string): (token: string)
    requires IsTranslationFileUrl(url)
  {
    url[|BaseUrl|..|url| - |Extension|]
  }

  /**
   * `getTranslationFileUrl`: the translation file for a locale or language code;
   * `None` for an absent or empty token.
   */
  function TranslationFileUrl(token: Option<string>): (r: Option<string>)
    ensures r.None? <==> token.None? || token.value == ""
    ensures r.Some? ==> IsTranslationFileUrl(r.value) && TokenOf(r.value) == token.value
  {
    if token.Some? && token.value != "" then
      var url := BaseUrl + token.value + Extension;
      assert url[..|BaseUrl|] == BaseUrl;
      assert url[|url| - |Extension|..] == Extension;
      assert url[|BaseUrl|..|url| - |Extension|] == token.value;
      Some(url)
    else None
  }

  /** Different non-empty tokens never share a translation file. */
  lemma TranslationFileUrlInjective(a: string, b: string)
    requires a != ""
    requires TranslationFileUrl(Some(a)) == TranslationFileUrl(Some(b))
    ensures a == b
  {
  }

  /** Number of entries of `urls` equal to `url` (the length of the source's `filter`). */
  function Occurrences(urls: seq<string>, url: string): (n: nat)
    ensures n <= |urls|
    ensures n == 0 <==> url !in urls
  {
    if urls == [] then 0
    else (if urls[0] == url then 1 else 0) + Occurrences(urls[1..], url)
  }

  /**
   * `validateUrlOrNull`: the URL itself when it is present, non-empty and not recorded
   * as invalid; `None` otherwise. The invalid list is only read.
   */
  function ValidateUrlOrNull(invalidUrls: seq<string>, url: Option<string>): (r: Option<string>)
    ensures r.Some? <==> url.Some? && url.value != "" && url.value !in invalidUrls
    ensures r.Some? ==> r == url
  {
    if url.Some? && url.value != "" && Occurrences(invalidUrls, url.value) == 0 then url else None
  }
}
