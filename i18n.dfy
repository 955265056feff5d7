/**
 * The supported locales of the site, their display names, the default locale,
 * and the validation step that turns the locale of an incoming request into
 * one the site can serve (i18n.ts).
 */
module I18n {
  import opened Wrappers

  /** The supported locales, in the order the site lists them. */
  const Locales: seq<string> := ["en", "ja", "ar", "es", "fr", "de", "ru", "zh"]

  /** The name of each locale in its own language, as shown by the language switcher. */
  const LocaleNames: map<string, string> := map[
    "en" := "English",
    "ja" := "日本語",
    "ar" := "العربية",
    "es" := "Español",
    "fr" := "Français",
    "de" := "Deutsch",
    "ru" := "Русский",
    "zh" := "中文"
  ]

  const DefaultLocale: string := "en"

  /**
   * The locale a request is served in: the requested one when it is present,
   * non-empty and supported, the default locale otherwise.
   */
  function ResolveLocale(requested: Option<string>): (locale: string)
    ensures locale in Locales
    ensures requested.Some? && requested.value in Locales ==> locale == requested.value
    ensures requested.None? || requested.value !in Locales ==> locale == DefaultLocale
  {
    if requested.None? || requested.value == "" || requested.value !in Locales then
      DefaultLocale
    else
      requested.value
  }

  /** The default locale is one of the supported locales. */
  lemma DefaultLocaleSupported()
    ensures DefaultLocale in Locales && DefaultLocale == Locales[0]
  {
  }

  /** Every supported locale has a display name, and only supported locales do. */
  lemma LocaleNamesTotal()
    ensures forall l :: l in Locales ==> l in LocaleNames && LocaleNames[l] != ""
    ensures forall l :: l in LocaleNames ==> l in Locales
  {
  }

  /** Resolving an already resolved locale changes nothing. */
  lemma ResolveLocaleIdempotent(requested: Option<string>)
    ensures ResolveLocale(Some(ResolveLocale(requested))) == ResolveLocale(requested)
  {
  }

  /**
   * The facts about the locale list that URL building and path rewriting rely
   * on: the locales are distinct, non-empty, free of '/', and none of them is
   * the reserved hreflang key "x-default".
   */
  lemma LocalesWellFormed()
    ensures forall i, j :: 0 <= i < j < |Locales| ==> Locales[i] != Locales[j]
    ensures forall l :: l in Locales ==> l != "" && '/' !in l && l != "x-default"
  {
  }
}
