/**
 * The static theme registry: ten locale records keyed by locale code, and
 * the fallback record (the "en" entry).
 */
module CulturalThemes {
  import opened CulturalTypes

  // The colour strings the table uses, named after the palette entries they copy.
  const Red500 := "rgb(239, 68, 68)"
  const Amber500 := "rgb(245, 158, 11)"
  const Green500 := "rgb(34, 197, 94)"
  const Blue500 := "rgb(59, 130, 246)"
  const Gray500 := "rgb(107, 114, 128)"
  const Orange500 := "rgb(249, 115, 22)"
  const Indigo500 := "rgb(99, 102, 241)"

  const En := Theme("en", "western", Preferences(
    Colors(Red500, Amber500, Green500, Blue500, Blue500, Gray500),
    Formatting("MM/DD/YYYY", ",", ".", Before, H12),
    Western, Ltr, ZPattern, Comfortable))

  const Fr := Theme("fr", "western-europe", Preferences(
    Colors(Red500, Amber500, Green500, Blue500, Blue500, Gray500),
    Formatting("DD/MM/YYYY", " ", ",", After, H24),
    Western, Ltr, ZPattern, Comfortable))

  const De := Theme("de", "western-europe", Preferences(
    Colors(Red500, Amber500, Green500, Blue500, Blue500, Gray500),
    Formatting("DD.MM.YYYY", ".", ",", After, H24),
    Western, Ltr, ZPattern, Comfortable))

  const Zh := Theme("zh", "east-asia", Preferences(
    Colors(Orange500, Amber500, Red500, Blue500, Red500, Gray500),
    Formatting("YYYY年MM月DD日", ",", ".", Before, H24),
    Eastern, Ltr, Vertical, Compact))

  const Ja := Theme("ja", "east-asia", Preferences(
    Colors(Orange500, Amber500, Green500, Blue500, Indigo500, Gray500),
    Formatting("YYYY年MM月DD日", ",", ".", Before, H24),
    Eastern, Ltr, Vertical, Compact))

  const Ar := Theme("ar", "middle-east", Preferences(
    Colors(Red500, Amber500, Green500, Blue500, Green500, Gray500),
    Formatting("DD/MM/YYYY", ",", ".", After, H12),
    Western, Rtl, FPattern, Spacious))

  const Es := Theme("es", "latin", Preferences(
    Colors(Red500, Amber500, Green500, Blue500, Red500, Gray500),
    Formatting("DD/MM/YYYY", ".", ",", After, H24),
    Western, Ltr, ZPattern, Comfortable))

  const It := Theme("it", "southern-europe", Preferences(
    Colors(Red500, Amber500, Green500, Blue500, Green500, Gray500),
    Formatting("DD/MM/YYYY", ".", ",", After, H24),
    Western, Ltr, ZPattern, Comfortable))

  const Pt := Theme("pt", "latin", Preferences(
    Colors(Red500, Amber500, Green500, Blue500, Green500, Gray500),
    Formatting("DD/MM/YYYY", ".", ",", After, H24),
    Western, Ltr, ZPattern, Comfortable))

  const Sw := Theme("sw", "east-africa", Preferences(
    Colors(Red500, Amber500, Green500, Blue500, Green500, Gray500),
    Formatting("DD/MM/YYYY", ",", ".", Before, H24),
    Western, Ltr, ZPattern, Spacious))

  /** The registry, keyed by locale code. */
  const Registry: map<string, Theme> := map[
    "en" := En, "fr" := Fr, "de" := De, "zh" := Zh, "ja" := Ja,
    "ar" := Ar, "es" := Es, "it" := It, "pt" := Pt, "sw" := Sw]

  /** The theme used for any code the registry does not hold: its "en" entry. */
  const DefaultTheme: Theme := Registry["en"]

  /** The four templates the date formatter recognises. */
  const DateTemplates: set<string> := {"MM/DD/YYYY", "DD/MM/YYYY", "DD.MM.YYYY", "YYYY年MM月DD日"}

  /** The registry holds exactly the ten codes, and every entry is filed under its own locale. */
  lemma RegistryKeys()
    ensures Registry.Keys == {"en", "fr", "de", "zh", "ja", "ar", "es", "it", "pt", "sw"}
    ensures forall code :: code in Registry ==> Registry[code].locale == code
  {
  }

  /** The fallback is the "en" record itself. */
  lemma DefaultIsEnglish()
    ensures DefaultTheme == En && DefaultTheme.locale == "en"
  {
  }

  /** No entry uses the same string for grouping and for the decimal point. */
  lemma SeparatorsDiffer()
    ensures forall code :: code in Registry ==>
      Registry[code].preferences.formatting.thousandsSeparator
        != Registry[code].preferences.formatting.decimalSeparator
  {
  }

  /**
   * Every entry groups digits with a comma, a space or a full stop and marks
   * the decimal point with a comma or a full stop.
   */
  lemma SeparatorMarks()
    ensures forall code :: code in Registry ==>
      Registry[code].preferences.formatting.thousandsSeparator in {",", " ", "."}
    ensures forall code :: code in Registry ==>
      Registry[code].preferences.formatting.decimalSeparator in {",", "."}
  {
  }

  /** Every entry's date template is one the date formatter handles explicitly. */
  lemma DateTemplatesRecognised()
    ensures forall code :: code in Registry ==>
      Registry[code].preferences.formatting.dateFormat in DateTemplates
  {
  }

  /** Only "ar" lays out right to left; only "zh" and "ja" use the eastern icon style. */
  lemma LayoutAndIconStyles()
    ensures forall code :: code in Registry ==>
      (Registry[code].preferences.layoutDirection == Rtl <==> code == "ar")
    ensures forall code :: code in Registry ==>
      (Registry[code].preferences.errorIconStyle == Eastern <==> code == "zh" || code == "ja")
  {
  }

  /** The formatting rules of the two reference locales. */
  lemma EnglishAndFrenchRules()
    ensures Registry["en"].preferences.formatting
      == Formatting("MM/DD/YYYY", ",", ".", Before, H12)
    ensures Registry["fr"].preferences.formatting
      == Formatting("DD/MM/YYYY", " ", ",", After, H24)
  {
  }
}
