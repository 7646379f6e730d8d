# Form-builder language pack service, modelled in Dafny

This project models the form-builder options service of an Angular shell that embeds a
form.io form builder. The service finds the language pack for the application's locale
and caches it. It has four parts:

- **Locale parser.** It extracts the primary language subtag (`en` from `en-US`) with a
  regular expression.
- **URL helpers.** One builds the translation file URL
  `assets/formio/builder/i18n/<token>.json`. The other checks a URL against the list of
  URLs whose requests failed before.
- **Cache-hit predicate.** It decides whether the cached pack already covers the locale
  or its language code.
- **Loader.** It requests the locale file and falls back to the language-code file. It
  records every failed URL in an append-only list, and it overwrites a single-slot cache.

The service's two mutable fields become an immutable `State`: the cached pack and the
invalid URL list. Each service call is a pure function from the locale, a state and a
`Network` to a `Step`. A `Step` holds the new state, the emitted value, and the URLs
requested in order. The `Network` maps each URL that succeeds to its response body. A URL
outside its domain is a failed request. The locale is a parameter, because the service
takes it once from `LOCALE_ID`. The application sets it to `de`.

Files:

- `wrappers.dfy`: `Option`, standing for `undefined`, with `??` as `OrElse`.
- `locale_code.dfy`: the parser. The regular expression is written twice, once as a
  declarative grammar (`MatchesWithCode`) and once as a scanner (`GetLanguageCode`). A
  lemma proves the two agree.
- `translation_url.dfy`: `getTranslationFileUrl` with its inverse `TokenOf`, and
  `validateUrlOrNull`.
- `form_builder_options.dfy`: the state, `containsLocale`, the URL selection,
  `loadLanguagePack`, `getFormBuilderLanguagePack` and `getI18nOptions`.
- `form_builder_options_properties.dfy`: properties that span several calls, and a
  `Session` of successive calls.
- `scenarios.dfy`: concrete runs. These cover the parser's documented examples, the
  configured locale `de`, and `de-DE` with a missing locale file.

The model follows the code in these places:

- The doc comment of `getLanguageCode` gives `az-Cyrl-AZ` as an example input. The
  expression expects the region before the script, so the code returns `undefined` for
  it (`Scenarios.CodeOfAzCyrlAz`).
- The code chooses `localeUrl ?? languageCodeUrl` and only then validates the chosen URL
  (service line 84). So a locale URL on the invalid list suppresses every request, even
  when the language-code URL is still valid.
- The fallback URL is never compared with the first URL (service line 85). For a bare
  language code such as `de`, `de.json` is requested a second time when the first
  request fails, and if that fails too it is recorded twice.
- The response body becomes the whole `i18n` map, holding bundles by locale or language
  code (service line 65).

## Model

| member | source | states |
|---|---|---|
| `LocaleCode.GetLanguageCode` | projects/shell/src/app/form-builder/services/form-builder-options.service.ts:141-147 | an empty locale has no language code; a code, when returned, is 2-3 lower-case letters, is a prefix of the locale, and is followed by `-` or by the end of the locale |
| `LocaleCode.GetLanguageCodeMatchesPattern` | projects/shell/src/app/form-builder/services/form-builder-options.service.ts:143-144 | the parser returns `code` if and only if the whole locale matches `^([a-z]{2,3})(?:-[A-Z]{2,3}(?:-[a-zA-Z]{4})?)?$` with `code` as the capture group |
| `LocaleCode.CaptureIsUnique` | projects/shell/src/app/form-builder/services/form-builder-options.service.ts:143 | the capture group of a matching locale is unique, so the result does not depend on how the expression backtracks |
| `LocaleCode.BareLanguageCode` | projects/shell/src/app/form-builder/services/form-builder-options.service.ts:81-82 | a locale is its own language code exactly when it is 2-3 lower-case letters; this is the case in which no locale URL exists |
| `TranslationUrl.TranslationFileUrl` | projects/shell/src/app/form-builder/services/form-builder-options.service.ts:131-134 | there is no URL for an absent or empty token; otherwise the URL has the translation-file shape and `TokenOf` recovers the token from it |
| `TranslationUrl.TranslationFileUrlInjective` | projects/shell/src/app/form-builder/services/form-builder-options.service.ts:131-134 | two different non-empty tokens never map to the same URL |
| `TranslationUrl.Occurrences` | projects/shell/src/app/form-builder/services/form-builder-options.service.ts:52 | the length of the filtered invalid list is zero exactly when the URL is not on the list |
| `TranslationUrl.ValidateUrlOrNull` | projects/shell/src/app/form-builder/services/form-builder-options.service.ts:51-53 | the URL comes back unchanged if and only if it is present, non-empty and not recorded as invalid; otherwise the result is absent; the list is only read |
| `FormBuilderOptions.ContainsLocale` | projects/shell/src/app/form-builder/services/form-builder-options.service.ts:114-129 | the result is false for an empty locale or a pack without `i18n`; it is true when the locale key is present, and with the flag also when the language-code key is present; a true result means one of these keys is present |
| `FormBuilderOptions.LocaleUrl` | projects/shell/src/app/form-builder/services/form-builder-options.service.ts:81 | a locale URL exists exactly when the locale is non-empty and differs from its language code, and it names the locale's file |
| `FormBuilderOptions.LanguageCodeUrl` | projects/shell/src/app/form-builder/services/form-builder-options.service.ts:82 | a language-code URL exists exactly when the locale parses, and it names the code's file |
| `FormBuilderOptions.Candidate` | projects/shell/src/app/form-builder/services/form-builder-options.service.ts:84 | the URL chosen before validation is the locale URL when one exists, and the language-code URL otherwise |
| `FormBuilderOptions.Fetch` | projects/shell/src/app/form-builder/services/form-builder-options.service.ts:91-95 | a request answers with a body exactly when the server serves the URL, and the body is what the server holds for it |
| `FormBuilderOptions.PreferredUrl` | projects/shell/src/app/form-builder/services/form-builder-options.service.ts:84 | the first URL is the locale URL if it exists, else the language-code URL; it is kept only when that chosen URL is not invalid |
| `FormBuilderOptions.FallbackUrl` | projects/shell/src/app/form-builder/services/form-builder-options.service.ts:85 | the second URL is the language-code URL when it was valid before any request of the call, even if it equals the first |
| `FormBuilderOptions.LoadLanguagePack` | projects/shell/src/app/form-builder/services/form-builder-options.service.ts:72-104 | a load makes at most two requests and never requests a URL already invalid; the invalid list grows by exactly the failed requests, in order; a pack comes back exactly when the last request succeeded, and it is that response; the first request is the preferred URL; a second request happens exactly when the first failed and the fallback was valid, and it is the fallback |
| `FormBuilderOptions.GetFormBuilderLanguagePack` | projects/shell/src/app/form-builder/services/form-builder-options.service.ts:55-70 | on a cache hit nothing is requested, the state is unchanged and the cached pack is returned; on a miss the cache is overwritten with the loaded pack, or with empty `i18n` when no pack came back |
| `FormBuilderOptions.GetI18nOptions` | projects/shell/src/app/form-builder/services/form-builder-options.service.ts:30-43 | `language` is always the locale's language code and `i18n` is always present; a call makes at most two requests; afterwards the cache holds a pack with `i18n`; the invalid list grows by exactly the failures; a hit requests nothing and returns the cached bundles; a miss caches and returns the last successful response, or empty bundles |
| `FormBuilderOptionsProperties.ContainsLocaleWithoutFlagImpliesWithFlag` | projects/shell/src/app/form-builder/services/form-builder-options.service.ts:119-126 | a pack that covers the locale without the language-code flag also covers it with the flag |
| `FormBuilderOptionsProperties.BlacklistedLocaleUrlSuppressesFetch` | projects/shell/src/app/form-builder/services/form-builder-options.service.ts:84-89 | once the locale URL is invalid, a load makes no request and changes nothing, whatever the state of the language-code URL |
| `FormBuilderOptionsProperties.BareLanguageCodeIsFetchedTwice` | projects/shell/src/app/form-builder/services/form-builder-options.service.ts:84-103 | for a bare language code whose valid file fails, that one URL is requested twice and recorded twice |
| `FormBuilderOptionsProperties.FailedPreferredIsRecorded` | projects/shell/src/app/form-builder/services/form-builder-options.service.ts:91-93 | when the first request of a call fails, that URL is the chosen candidate and it is on the invalid list afterwards |
| `FormBuilderOptionsProperties.BlockedCandidateFetchesNothing` | projects/shell/src/app/form-builder/services/form-builder-options.service.ts:84-89 | a call whose candidate URL is invalid makes no request and leaves the invalid list unchanged, whether or not the cache hits |
| `FormBuilderOptionsProperties.FailedPreferredSilencesNextCall` | projects/shell/src/app/form-builder/services/form-builder-options.service.ts:55-58 | after a call whose first request failed, the next call for the same locale makes no request, whatever the network answers |
| `FormBuilderOptionsProperties.AllFailedRepeatIsEmpty` | projects/shell/src/app/form-builder/services/form-builder-options.service.ts:61-69 | after a call in which every request failed, a repeat call makes no request, changes no state and returns the language code with empty bundles |
| `FormBuilderOptionsProperties.Session` | projects/shell/src/app/form-builder/services/form-builder-options.service.ts:17-20 | over successive calls on one service, each call emits one value with the locale's language code and makes at most two requests; the invalid list only grows, and existing entries stay in place |
| `FormBuilderOptionsProperties.BlockedCandidateSilencesSession` | projects/shell/src/app/form-builder/services/form-builder-options.service.ts:19-20 | once the candidate URL is invalid, no later call of any session makes a request or changes the invalid list |
| `FormBuilderOptionsProperties.FailedPreferredSilencesSession` | projects/shell/src/app/form-builder/services/form-builder-options.service.ts:91-93 | in a session whose first call saw its first URL fail, every later call makes no request |
| `Scenarios.CodeOfEn` | projects/shell/src/app/form-builder/services/form-builder-options.service.ts:138 | `en` has language code `en` |
| `Scenarios.CodeOfEnUs` | projects/shell/src/app/form-builder/services/form-builder-options.service.ts:138 | `en-US` has language code `en` |
| `Scenarios.CodeOfFilPh` | projects/shell/src/app/form-builder/services/form-builder-options.service.ts:138 | `fil-PH` has language code `fil` |
| `Scenarios.CodeOfSrRsLatn` | projects/shell/src/app/form-builder/services/form-builder-options.service.ts:143 | a region followed by a script, as in `sr-RS-Latn`, is accepted |
| `Scenarios.CodeOfE` | projects/shell/src/app/form-builder/services/form-builder-options.service.ts:143 | a single upper-case letter has no language code |
| `Scenarios.CodeOfAzCyrlAz` | projects/shell/src/app/form-builder/services/form-builder-options.service.ts:138-144 | `az-Cyrl-AZ`, a documented example with the script before the region, has no language code |
| `Scenarios.GermanRegionFallsBackToLanguageCode` | projects/shell/src/app/form-builder/services/form-builder-options.service.ts:91-102 | for `de-DE` on a fresh service whose server lacks `de-DE.json`, `de-DE.json` then `de.json` are requested; the German pack is returned and cached, and only `de-DE.json` is recorded; a repeat call hits the cache |
| `Scenarios.BlacklistedRegionFileHidesValidLanguageFile` | projects/shell/src/app/form-builder/services/form-builder-options.service.ts:84-89 | with `de-DE.json` invalid and `de.json` valid and served, `de-DE` makes no request and returns empty bundles |
| `Scenarios.AppLocaleWithoutTranslationFile` | projects/shell/src/app/app.module.ts:11 | for the configured locale `de` with no file served, `de.json` is requested twice and recorded twice, and empty bundles are returned; the next call makes no request |

## Left out

- The Angular component, module wiring and dependency injection are UI glue with no stateable logic. This covers the component's constant `getFormBuilderOptions` object, its preview writing and its event plumbing.
- RxJS: each one-shot observable becomes the single value of a pure function. `HttpClient.get` becomes a lookup in `Network`, and the `console.log` at service line 59 is dropped.
- The network answers each URL the same way within a call. So a URL requested twice in one call fails both times, and transient failures are not modelled.
- Overlapping concurrent calls are not modelled. The source does not coalesce them, and each call here runs to completion before the next.
- JavaScript truthiness is reduced to key presence and non-emptiness. A `null` response body counts as a successful pack. Inherited object keys such as `constructor`, which make `i18n[locale]` truthy in JavaScript, are not modelled.
- An `undefined` locale is modelled as the empty string, because both are falsy at every place the source tests them.
- `Object.assign` mutates the result object in place. The model builds a fresh `I18nOptions`, because nothing else holds that object.
