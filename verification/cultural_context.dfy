/**
 * The cultural provider: resolves the active locale to a theme, memoises
 * the context value (the theme plus the formatters bound to it), mirrors
 * the theme onto the document, and the two consumer hooks.
 */
module CulturalContext {
  import opened JsText
  import opened CulturalTypes
  import opened CulturalThemes
  import opened DigitGrouping
  import opened Formatters
  import opened ColorProjection

  /** `culturalThemes[locale] || defaultCulturalTheme`. */
  function Resolve(locale: string): (t: Theme)
    ensures t in Registry.Values
  {
    if locale in Registry then Registry[locale] else DefaultTheme
  }

  /** A registered code resolves to its own entry; any other code to the "en" entry. */
  lemma ResolveCases(locale: string)
    ensures locale in Registry ==> Resolve(locale) == Registry[locale]
    ensures locale !in Registry ==> Resolve(locale) == En
  {
  }

  /** The resolved theme carries the requested code exactly when that code is registered. */
  lemma ResolveKeepsCodeIffRegistered(locale: string)
    ensures Resolve(locale).locale == locale <==> locale in Registry
  {
    RegistryKeys();
  }

  /** Resolving the code of a resolved theme gives that theme again. */
  lemma ResolveIdempotent(locale: string)
    ensures Resolve(Resolve(locale).locale) == Resolve(locale)
  {
    RegistryKeys();
  }

  /** Of all locale codes, exactly "ar" resolves to a right-to-left layout. */
  lemma ResolvedDirection(locale: string)
    ensures Resolve(locale).preferences.layoutDirection == Rtl <==> locale == "ar"
  {
    RegistryKeys();
    LayoutAndIconStyles();
  }

  /** Of all locale codes, exactly "zh" and "ja" resolve to the eastern icon style. */
  lemma ResolvedIconStyle(locale: string)
    ensures Resolve(locale).preferences.errorIconStyle == Eastern <==> locale == "zh" || locale == "ja"
  {
    RegistryKeys();
    LayoutAndIconStyles();
  }

  /**
   * Every resolved theme's separators are single marks without digits, and
   * its grouping separator holds no `$` replacement pattern.
   */
  lemma ResolvedSeparatorsPlain(locale: string)
    ensures '$' !in Resolve(locale).preferences.formatting.thousandsSeparator
    ensures KeepDigits(Resolve(locale).preferences.formatting.thousandsSeparator) == []
    ensures KeepDigits(Resolve(locale).preferences.formatting.decimalSeparator) == []
  {
    SeparatorMarks();
    var f := Resolve(locale).preferences.formatting;
    assert f.thousandsSeparator in {",", " ", "."};
    assert f.decimalSeparator in {",", "."};
    NoDigitMark(f.thousandsSeparator);
    NoDigitMark(f.decimalSeparator);
  }

  /** A one-character mark that is not a digit leaves nothing when non-digits are deleted. */
  lemma NoDigitMark(mark: string)
    requires mark in {",", " ", "."}
    ensures KeepDigits(mark) == []
  {
    assert mark[..0] == [];
  }

  /**
   * `formatNumber` under any resolved theme: the sign, the digits grouped in
   * threes with the theme's separator, then the decimal separator and the
   * fraction.
   */
  lemma ResolvedNumberShape(locale: string, n: NumberText)
    requires n.Valid()
    ensures var f := Resolve(locale).preferences.formatting;
      FormatNumber(f, n)
        == SignText(n.negative) + GroupDigits(n.whole, f.thousandsSeparator)
           + (if n.fraction == [] then "" else f.decimalSeparator + n.fraction)
    ensures KeepDigits(FormatNumber(Resolve(locale).preferences.formatting, n)) == n.whole + n.fraction
  {
    ResolvedSeparatorsPlain(locale);
    FormatNumberShape(Resolve(locale).preferences.formatting, n);
    FormatNumberKeepsDigits(Resolve(locale).preferences.formatting, n);
  }

  /** What the context hands to its consumers: the resolved theme, with the formatters bound to it. */
  datatype ContextValue = ContextValue(currentTheme: Theme)
  {
    function Rules(): Formatting { currentTheme.preferences.formatting }

    function FormatNumber(n: NumberText): string { Formatters.FormatNumber(Rules(), n) }

    function FormatDate(d: Date): string { Formatters.FormatDate(Rules(), d) }

    function FormatCurrency(amount: NumberText, currency: string): string
    {
      Formatters.FormatCurrency(Rules(), amount, currency)
    }
  }

  /** The memoised value for a locale. */
  function ContextFor(locale: string): (v: ContextValue)
    ensures v.currentTheme == Resolve(locale)
  {
    ContextValue(Resolve(locale))
  }

  /**
   * `formatNumber(-1234567.89)`: grouped in threes with the theme's
   * separator, the fraction after the theme's decimal separator. Under the
   * English rules this reads "-1,234,567.89", under the French ones
   * "-1 234 567,89".
   */
  lemma NumberExample(f: Formatting, n: NumberText)
    requires n == NumberText(true, "1234567", "89") && '$' !in f.thousandsSeparator
    ensures FormatNumber(f, n)
      == "-1" + f.thousandsSeparator + "234" + f.thousandsSeparator + "567" + f.decimalSeparator + "89"
  {
    FormatNumberShape(f, n);
    var sep := f.thousandsSeparator;
    var w := "1234567";
    assert GroupDigits(w, sep) == GroupDigits("1234", sep) + sep + "567" by {
      assert w[..|w| - 3] == "1234" && w[|w| - 3..] == "567";
    }
    assert GroupDigits("1234", sep) == "1" + sep + "234" by {
      assert "1234"[..1] == "1" && "1234"[1..] == "234";
    }
    ExampleConcat(FormatNumber(f, n), sep, f.decimalSeparator, GroupDigits(w, sep), GroupDigits("1234", sep));
  }

  /** Assembles the example's pieces into one text. */
  lemma ExampleConcat(r: string, sep: string, dec: string, g: string, g': string)
    requires r == "-" + g + (dec + "89") && g == g' + sep + "567" && g' == "1" + sep + "234"
    ensures r == "-1" + sep + "234" + sep + "567" + dec + "89"
  {
    assert "-" + "1" == "-1";
  }

  /** Christmas 2024 under each of the four templates. */
  lemma DateExamples(f: Formatting, d: Date)
    requires d == Date(2024, 12, 25)
    ensures f.dateFormat == "MM/DD/YYYY" ==> FormatDate(f, d) == "12/25/2024"
    ensures f.dateFormat == "DD/MM/YYYY" ==> FormatDate(f, d) == "25/12/2024"
    ensures f.dateFormat == "DD.MM.YYYY" ==> FormatDate(f, d) == "25.12.2024"
    ensures f.dateFormat == "YYYY年MM月DD日" ==> FormatDate(f, d) == "2024年12月25日"
    ensures f.dateFormat !in DateTemplates ==> FormatDate(f, d) == "25/12/2024"
  {
    DateFields(d);
    var day, month, year := Pad2(d.day), Pad2(d.month), IntToString(d.year);
    assert month + "/" + day + "/" + year == "12/25/2024";
    assert day + "/" + month + "/" + year == "25/12/2024";
    assert day + "." + month + "." + year == "25.12.2024";
    assert year + "年" + month + "月" + day + "日" == "2024年12月25日";
  }

  lemma DateFields(d: Date)
    requires d == Date(2024, 12, 25)
    ensures Pad2(d.day) == "25" && Pad2(d.month) == "12" && IntToString(d.year) == "2024"
  {
    assert NatToString(2024) == "2024";
    assert Pad2(12) == "12";
    assert Pad2(25) == "25";
  }

  /** The hook's outcome: the value, or the error it throws. */
  datatype HookResult<T> = Returned(value: T) | Thrown(message: string)

  const OutsideProviderMessage := "useCultural must be used within a CulturalProvider"

  /** `useCultural`: the nearest provider's value, or an error when there is none. */
  function UseCultural(provided: Option<ContextValue>): (r: HookResult<ContextValue>)
    ensures r.Returned? <==> provided.Some?
    ensures r.Returned? ==> r.value == provided.value
    ensures r.Thrown? ==> r.message == OutsideProviderMessage
  {
    match provided
    case Some(v) => Returned(v)
    case None => Thrown(OutsideProviderMessage)
  }

  /** `useCulturalStyles`: the raw colour of every role under its custom property name. */
  function UseCulturalStyles(provided: Option<ContextValue>): (r: HookResult<map<string, string>>)
    ensures r.Returned? <==> provided.Some?
    ensures r.Returned? ==> r.value.Keys == StyleVars
    ensures r.Returned? ==> forall role: Role ::
      r.value[StyleVar(role)] == provided.value.currentTheme.preferences.colors.Of(role)
    ensures r.Thrown? ==> r.message == OutsideProviderMessage
  {
    match UseCultural(provided)
    case Returned(v) => Returned(CulturalStyles(v.currentTheme))
    case Thrown(m) => Thrown(m)
  }

  /** The parts of the page the provider writes to: body attributes and root style properties. */
  class Document {
    var bodyAttributes: map<string, string>
    var rootStyle: map<string, string>

    constructor()
      ensures bodyAttributes == map[] && rootStyle == map[]
    {
      bodyAttributes := map[];
      rootStyle := map[];
    }

    /** `document.body.setAttribute(name, value)`. */
    method SetBodyAttribute(name: string, value: string)
      modifies this
      ensures bodyAttributes == old(bodyAttributes)[name := value]
      ensures rootStyle == old(rootStyle)
    {
      bodyAttributes := bodyAttributes[name := value];
    }

    /** `document.documentElement.style.setProperty(name, value)`. */
    method SetProperty(name: string, value: string)
      modifies this
      ensures rootStyle == old(rootStyle)[name := value]
      ensures bodyAttributes == old(bodyAttributes)
    {
      rootStyle := rootStyle[name := value];
    }

    /** Whether the page shows the theme: its code on the body and its six projected colours on the root. */
    predicate Shows(t: Theme)
      reads this
    {
      "data-cultural-theme" in bodyAttributes && bodyAttributes["data-cultural-theme"] == t.locale
      && forall k :: k in StyleVars ==> k in rootStyle && rootStyle[k] == ProjectedStyle(t)[k]
    }

    /**
     * The provider's effect: tag the body with the resolved theme's code and
     * write the six projected colours, one property after another.
     */
    method ApplyCulturalTheme(locale: string)
      modifies this
      ensures bodyAttributes == old(bodyAttributes)["data-cultural-theme" := Resolve(locale).locale]
      ensures rootStyle == old(rootStyle) + ProjectedStyle(Resolve(locale))
      ensures Shows(Resolve(locale))
    {
      var theme := Resolve(locale);
      WriteTheme(theme);
    }

    method WriteTheme(theme: Theme)
      modifies this
      ensures bodyAttributes == old(bodyAttributes)["data-cultural-theme" := theme.locale]
      ensures rootStyle == old(rootStyle) + ProjectedStyle(theme)
      ensures Shows(theme)
    {
      SetBodyAttribute("data-cultural-theme", theme.locale);
      ghost var before := rootStyle;
      var colors := theme.preferences.colors;
      SetProperty("--cultural-error", CssVariableValue(colors.error));
      SetProperty("--cultural-warning", CssVariableValue(colors.warning));
      SetProperty("--cultural-success", CssVariableValue(colors.success));
      SetProperty("--cultural-info", CssVariableValue(colors.info));
      SetProperty("--cultural-primary", CssVariableValue(colors.primary));
      SetProperty("--cultural-secondary", CssVariableValue(colors.secondary));
      SixWritesAreProjection(before, theme);
      ProjectionShown(before, theme);
    }
  }

  /** The six property writes, in order, amount to laying the projected style over the old one. */
  lemma SixWritesAreProjection(style: map<string, string>, t: Theme)
    ensures var c := t.preferences.colors;
      style["--cultural-error" := CssVariableValue(c.error)]
           ["--cultural-warning" := CssVariableValue(c.warning)]
           ["--cultural-success" := CssVariableValue(c.success)]
           ["--cultural-info" := CssVariableValue(c.info)]
           ["--cultural-primary" := CssVariableValue(c.primary)]
           ["--cultural-secondary" := CssVariableValue(c.secondary)]
      == style + ProjectedStyle(t)
  {
    var c := t.preferences.colors;
    WritesAreUnion(style,
      "--cultural-error", CssVariableValue(c.error), "--cultural-warning", CssVariableValue(c.warning),
      "--cultural-success", CssVariableValue(c.success), "--cultural-info", CssVariableValue(c.info),
      "--cultural-primary", CssVariableValue(c.primary), "--cultural-secondary", CssVariableValue(c.secondary));
  }

  /** Six writes in order leave what laying the six entries over the map does, later entries winning. */
  lemma WritesAreUnion(style: map<string, string>, k1: string, v1: string, k2: string, v2: string,
                       k3: string, v3: string, k4: string, v4: string, k5: string, v5: string,
                       k6: string, v6: string)
    ensures style[k1 := v1][k2 := v2][k3 := v3][k4 := v4][k5 := v5][k6 := v6]
      == style + map[k1 := v1, k2 := v2, k3 := v3, k4 := v4, k5 := v5, k6 := v6]
  {
  }

  /** After the projected style is laid over any style, each of the six properties holds its projection. */
  lemma ProjectionShown(style: map<string, string>, t: Theme)
    ensures forall k :: k in StyleVars ==> k in style + ProjectedStyle(t) && (style + ProjectedStyle(t))[k] == ProjectedStyle(t)[k]
  {
  }

  /**
   * Applying a second theme overwrites every property the first one wrote:
   * what the root holds afterwards does not depend on the earlier theme.
   */
  lemma ReapplyOverwrites(style: map<string, string>, first: Theme, second: Theme)
    ensures style + ProjectedStyle(first) + ProjectedStyle(second) == style + ProjectedStyle(second)
  {
    var a := style + ProjectedStyle(first) + ProjectedStyle(second);
    var b := style + ProjectedStyle(second);
    assert a.Keys == b.Keys;
    assert forall k :: k in a ==> a[k] == b[k];
  }

  /**
   * The provider: the active locale, the value it memoises for it, and the
   * document its effect keeps in step with that value.
   */
  class CulturalProvider {
    var locale: string
    var value: ContextValue
    const document: Document

    predicate Valid()
      reads this, document
    {
      value == ContextFor(locale) && document.Shows(value.currentTheme)
    }

    constructor(locale: string, document: Document)
      modifies document
      ensures this.locale == locale && this.document == document
      ensures document.bodyAttributes == old(document.bodyAttributes)["data-cultural-theme" := Resolve(locale).locale]
      ensures document.rootStyle == old(document.rootStyle) + ProjectedStyle(Resolve(locale))
      ensures Valid()
    {
      document.ApplyCulturalTheme(locale);
      this.locale := locale;
      this.value := ContextFor(locale);
      this.document := document;
    }

    /** A locale change: the memo and the effect both re-run for the new locale. */
    method SetLocale(newLocale: string)
      modifies this, document
      ensures locale == newLocale && value == ContextFor(newLocale)
      ensures document.bodyAttributes == old(document.bodyAttributes)["data-cultural-theme" := Resolve(newLocale).locale]
      ensures document.rootStyle == old(document.rootStyle) + ProjectedStyle(Resolve(newLocale))
      ensures Valid()
    {
      locale := newLocale;
      value := ContextFor(newLocale);
      document.ApplyCulturalTheme(newLocale);
    }

    /**
     * What `useCultural` returns to a consumer rendered inside this provider:
     * the memoised value, whose theme is the resolved one the page shows.
     */
    function Consumed(): (r: HookResult<ContextValue>)
      reads this, document
      requires Valid()
      ensures r.Returned? && r.value.currentTheme == Resolve(locale)
      ensures document.Shows(r.value.currentTheme)
    {
      UseCultural(Some(value))
    }
  }
}
