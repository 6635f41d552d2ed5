/**
 * The language switcher: which entry the button shows, the path a choice
 * navigates to, whether the menu is open, and each entry's direction.
 */
module LanguageSwitcher {
  import opened JsText
  import opened CulturalTypes
  import opened CulturalThemes
  import opened CulturalContext
  import opened Locales

  /** `langs.find(lang => lang.code === code)`: the first entry with the code, if any. */
  function FindByCode(langs: seq<Language>, code: string): (r: Option<Language>)
  {
    if langs == [] then None
    else if langs[0].code == code then Some(langs[0])
    else FindByCode(langs[1..], code)
  }

  /** `find` returns the first entry carrying the code, and nothing only when no entry carries it. */
  lemma {:induction false} FindByCodeFirst(langs: seq<Language>, code: string)
    ensures FindByCode(langs, code).None? <==> forall i :: 0 <= i < |langs| ==> langs[i].code != code
    ensures FindByCode(langs, code).Some? ==>
      (exists i :: 0 <= i < |langs| && langs[i] == FindByCode(langs, code).value
         && langs[i].code == code && forall j :: 0 <= j < i ==> langs[j].code != code)
  {
    if langs != [] && langs[0].code != code {
      FindByCodeFirst(langs[1..], code);
      if FindByCode(langs, code).Some? {
        var i :| 0 <= i < |langs[1..]| && langs[1..][i] == FindByCode(langs, code).value
          && langs[1..][i].code == code && forall j :: 0 <= j < i ==> langs[1..][j].code != code;
        assert langs[i + 1] == FindByCode(langs, code).value;
      }
    } else if langs != [] {
      assert langs[0] == FindByCode(langs, code).value;
    }
  }

  /** `currentLanguage`: the entry for the active locale, or the first entry. */
  function CurrentLanguage(locale: string): Language
  {
    match FindByCode(Languages, locale)
    case Some(lang) => lang
    case None => Languages[0]
  }

  /** A listed code shows its own entry; any other locale shows English. */
  lemma CurrentLanguageCases(locale: string)
    ensures locale in Codes(Languages) ==> CurrentLanguage(locale).code == locale
    ensures locale !in Codes(Languages) ==> CurrentLanguage(locale) == Language("en", "English", "🇺🇸")
  {
    FindByCodeFirst(Languages, locale);
    LanguagesInOrder();
    if locale !in Codes(Languages) {
      assert forall i :: 0 <= i < |Languages| ==> Languages[i].code != locale by {
        forall i | 0 <= i < |Languages|
          ensures Languages[i].code != locale
        {
          assert Codes(Languages)[i] == Languages[i].code;
        }
      }
    } else {
      var k :| 0 <= k < |Codes(Languages)| && Codes(Languages)[k] == locale;
      assert Languages[k].code == locale;
    }
  }

  /** `segments.slice(2)`. */
  function DropTwo(segments: seq<string>): seq<string>
  {
    if |segments| >= 2 then segments[2..] else []
  }

  /**
   * The path `switchLanguage` navigates to: the new locale, then whatever
   * followed the second "/"-separated segment of the current path.
   */
  function SwitchPath(pathname: string, newLocale: string): (target: string)
    ensures |target| >= |newLocale| + 2
    ensures target[..|newLocale| + 2] == "/" + newLocale + "/"
  {
    "/" + newLocale + "/" + Join(DropTwo(Split(pathname, '/')), "/")
  }

  /** A locale-prefixed path keeps everything after the locale segment, verbatim. */
  lemma SwitchPathReplacesLocale(locale: string, rest: string, newLocale: string)
    requires '/' !in locale
    ensures SwitchPath("/" + locale + "/" + rest, newLocale) == "/" + newLocale + "/" + rest
  {
    var p := "/" + locale + "/" + rest;
    assert p == [] + ['/'] + (locale + ['/'] + rest);
    SplitAfterPiece([], '/', locale + ['/'] + rest);
    SplitAfterPiece(locale, '/', rest);
    assert Split(p, '/') == ["", locale] + Split(rest, '/');
    assert DropTwo(Split(p, '/')) == Split(rest, '/');
    JoinSplit(rest, '/');
  }

  /** A bare locale path such as "/fr" gives the new locale with a trailing slash. */
  lemma SwitchPathBareLocale(locale: string, newLocale: string)
    requires '/' !in locale
    ensures SwitchPath("/" + locale, newLocale) == "/" + newLocale + "/"
  {
    var p := "/" + locale;
    assert p == [] + ['/'] + locale;
    SplitAfterPiece([], '/', locale);
    SplitWithout(locale, '/');
    assert DropTwo(Split(p, '/')) == [];
  }

  /** An entry's `dir`: right to left for Arabic only. */
  function EntryDirection(code: string): (d: LayoutDirection)
    ensures d == Rtl <==> code == "ar"
  {
    if code == "ar" then Rtl else Ltr
  }

  /** For every listed language the menu's direction agrees with that language's theme. */
  lemma EntryDirectionMatchesTheme(i: nat)
    requires i < |Languages|
    ensures EntryDirection(Languages[i].code) == Resolve(Languages[i].code).preferences.layoutDirection
  {
    CodesRegistered();
    LayoutAndIconStyles();
  }

  /** The open/closed state of the menu. */
  class LanguageMenu {
    var isOpen: bool

    constructor()
      ensures !isOpen
    {
      isOpen := false;
    }

    /** The button's click handler. */
    method Toggle()
      modifies this
      ensures isOpen == !old(isOpen)
    {
      isOpen := !isOpen;
    }

    /** `switchLanguage`: close the menu and return the path to navigate to. */
    method SwitchLanguage(pathname: string, newLocale: string) returns (target: string)
      modifies this
      ensures !isOpen
      ensures target == SwitchPath(pathname, newLocale)
    {
      isOpen := false;
      target := SwitchPath(pathname, newLocale);
    }
  }
}
