/**
 * The locale parser of the form-builder options service: extraction of the primary
 * language subtag from a locale such as `en-US`.
 *
 * The source matches the locale against the regular expression
 *   ^([a-z]{2,3})(?:-[A-Z]{2,3}(?:-[a-zA-Z]{4})?)?$
 * and returns the capture group. Here the expression is stated twice: as a declarative
 * grammar (`MatchesWithCode`) and as a left-to-right scanner (`GetLanguageCode`), and
 * `GetLanguageCodeMatchesPattern` proves the two agree.
 */
module LocaleCode {
  import opened Wrappers

  predicate IsLower(c: char) { 'a' <= c <= 'z' }
  predicate IsUpper(c: char) { 'A' <= c <= 'Z' }
  predicate IsAlpha(c: char) { IsLower(c) || IsUpper(c) }

  /** Every character of `s` is in the class `p`. */
  predicate All(s: string, p: char -> bool) {
    forall i :: 0 <= i < |s| ==> p(s[i])
  }

  // ---------------------------------------------------------------------------
  // The regular expression as a grammar
  // ---------------------------------------------------------------------------

  /** The optional script group `(?:-[a-zA-Z]{4})?`. */
  predicate ScriptSuffix(u: string) {
    u == [] || (|u| == 5 && u[0] == '-' && All(u[1..], IsAlpha))
  }

  /** `-`, exactly `m` upper-case letters, then an optional script group. */
  predicate RegionSuffix(t: string, m: nat) {
    1 + m <= |t| && t[0] == '-' && All(t[1..1 + m], IsUpper) && ScriptSuffix(t[1 + m..])
  }

  /** The optional group `(?:-[A-Z]{2,3}(?:-[a-zA-Z]{4})?)?` up to the end anchor. */
  predicate SubtagSuffix(t: string) {
    t == [] || RegionSuffix(t, 2) || RegionSuffix(t, 3)
  }

  /** The whole `locale` matches the expression and `code` is its capture group `([a-z]{2,3})`. */
  predicate MatchesWithCode(locale: string, code: string) {
    && (|code| == 2 || |code| == 3)
    && code <= locale
    && All(code, IsLower)
    && SubtagSuffix(locale[|code|..])
  }

  // ---------------------------------------------------------------------------
  // The scanner
  // ---------------------------------------------------------------------------

  /** Length of the longest prefix of `s` whose characters are all in the class `p`. */
  function Run(s: string, p: char -> bool): (n: nat)
    ensures n <= |s|
    ensures All(s[..n], p)
    ensures n < |s| ==> !p(s[n])
  {
    if s == [] || !p(s[0]) then 0 else 1 + Run(s[1..], p)
  }

  lemma RunIsMaximal(s: string, p: char -> bool, k: nat)
    requires k <= |s| && All(s[..k], p)
    ensures k <= Run(s, p)
  {
  }

  /** Scans what follows the language subtag: nothing, or a region and an optional script. */
  function ScanSubtags(t: string): bool {
    if t == [] then true
    else if t[0] != '-' then false
    else
      var m := Run(t[1..], IsUpper);
      if m < 2 || 3 < m then false
      else
        var u := t[1 + m..];
        u == [] || (|u| == 5 && u[0] == '-' && Run(u[1..], IsAlpha) == 4)
  }

  /**
   * `getLanguageCode`: the primary language subtag of `locale`, or `None` when the
   * locale is empty or does not match the expression.
   */
  function GetLanguageCode(locale: string): (r: Option<string>)
    ensures r.Some? ==> 2 <= |r.value| <= 3 && r.value <= locale && All(r.value, IsLower)
    ensures r.Some? && |r.value| < |locale| ==> locale[|r.value|] == '-'
    ensures locale == "" ==> r.None?
  {
    if locale == "" then None
    else
      var n := Run(locale, IsLower);
      if 2 <= n <= 3 && ScanSubtags(locale[n..]) then Some(locale[..n]) else None
  }

  // ---------------------------------------------------------------------------
  // Scanner and grammar agree
  // ---------------------------------------------------------------------------

  lemma ScanSubtagsSound(t: string)
    requires ScanSubtags(t)
    ensures SubtagSuffix(t)
  {
    if t != [] {
      var m := Run(t[1..], IsUpper);
      var u := t[1 + m..];
      assert t[1..][..m] == t[1..1 + m];
      if u != [] {
        assert u[1..][..4] == u[1..];
      }
      assert RegionSuffix(t, m);
    }
  }

  lemma ScanSubtagsComplete(t: string, k: nat)
    requires (k == 2 || k == 3) && RegionSuffix(t, k)
    ensures ScanSubtags(t)
  {
    var s := t[1..];
    assert s[..k] == t[1..1 + k];
    RunIsMaximal(s, IsUpper, k);
    var m := Run(s, IsUpper);
    if k < |s| {
      assert s[k] == t[1 + k] == '-';
    }
    assert m == k;
    var u := t[1 + m..];
    if u != [] {
      assert u[1..][..4] == u[1..];
      RunIsMaximal(u[1..], IsAlpha, 4);
    }
  }

  lemma ScanSubtagsIsSubtagSuffix(t: string)
    ensures ScanSubtags(t) <==> SubtagSuffix(t)
  {
    if ScanSubtags(t) {
      ScanSubtagsSound(t);
    }
    if t != [] && SubtagSuffix(t) {
      if RegionSuffix(t, 2) {
        ScanSubtagsComplete(t, 2);
      } else {
        ScanSubtagsComplete(t, 3);
      }
    }
  }

  lemma MatchIsScanned(locale: string, code: string)
    requires MatchesWithCode(locale, code)
    ensures GetLanguageCode(locale) == Some(code)
  {
    var k := |code|;
    assert locale[..k] == code;
    RunIsMaximal(locale, IsLower, k);
    if k < |locale| {
      assert locale[k..][0] == locale[k];
    }
    assert Run(locale, IsLower) == k;
    ScanSubtagsIsSubtagSuffix(locale[k..]);
  }

  /** The scanner returns `Some(code)` exactly when the whole locale matches with capture `code`. */
  lemma GetLanguageCodeMatchesPattern(locale: string, code: string)
    ensures GetLanguageCode(locale) == Some(code) <==> MatchesWithCode(locale, code)
  {
    if GetLanguageCode(locale) == Some(code) {
      ScanSubtagsIsSubtagSuffix(locale[|code|..]);
    }
    if MatchesWithCode(locale, code) {
      MatchIsScanned(locale, code);
    }
  }

  /** The capture group is determined by the locale: no two codes match the same locale. */
  lemma CaptureIsUnique(locale: string, code1: string, code2: string)
    requires MatchesWithCode(locale, code1) && MatchesWithCode(locale, code2)
    ensures code1 == code2
  {
    GetLanguageCodeMatchesPattern(locale, code1);
    GetLanguageCodeMatchesPattern(locale, code2);
  }

  /** A locale is its own language code exactly when it is a bare 2-3 letter lower-case code. */
  lemma BareLanguageCode(locale: string)
    ensures GetLanguageCode(locale) == Some(locale) <==> (2 <= |locale| <= 3 && All(locale, IsLower))
  {
    GetLanguageCodeMatchesPattern(locale, locale);
    assert locale[|locale|..] == [];
  }
}
