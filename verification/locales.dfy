/**
 * The supported-locale list the language switcher offers: code, display
 * name and flag, in menu order.
 */
module Locales {
  import opened CulturalThemes

  datatype Language = Language(code: string, name: string, flag: string)

  const Languages: seq<Language> := [
    Language("en", "English", "🇺🇸"),
    Language("fr", "Français", "🇫🇷"),
    Language("es", "Español", "🇪🇸"),
    Language("ar", "العربية", "🇸🇦"),
    Language("pt", "Português", "🇵🇹"),
    Language("zh", "中文", "🇨🇳")]

  /** The codes of a list of languages, in order. */
  function Codes(langs: seq<Language>): (cs: seq<string>)
    ensures |cs| == |langs|
    ensures forall i :: 0 <= i < |langs| ==> cs[i] == langs[i].code
  {
    if langs == [] then [] else [langs[0].code] + Codes(langs[1..])
  }

  /** Six entries, in the order en, fr, es, ar, pt, zh, the first being English. */
  lemma LanguagesInOrder()
    ensures Codes(Languages) == ["en", "fr", "es", "ar", "pt", "zh"]
    ensures Languages[0] == Language("en", "English", "🇺🇸")
  {
  }

  /** No code is listed twice. */
  lemma CodesDistinct()
    ensures forall i, j :: 0 <= i < j < |Languages| ==> Languages[i].code != Languages[j].code
  {
  }

  /** Every listed code has its own entry in the theme registry. */
  lemma CodesRegistered()
    ensures forall i :: 0 <= i < |Languages| ==>
      Languages[i].code in Registry && Registry[Languages[i].code].locale == Languages[i].code
  {
  }
}
