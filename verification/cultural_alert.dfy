/**
 * The alert component: an icon chosen by the theme's icon style, a class
 * list and an inline style that refer to the role's custom property.
 */
module CulturalAlert {
  import opened JsText
  import opened CulturalTypes
  import opened CulturalThemes
  import opened Formatters
  import opened ColorProjection
  import opened CulturalContext

  const CrossMark := "\U{274C}"
  const WarningSign := "\U{26A0}\U{FE0F}"
  const Caution := "\U{6CE8}\U{610F}"
  const PartyPopper := "\U{1F389}"
  const CheckMark := "\U{2713}"
  const CheckBox := "\U{2705}"
  const InfoPlain := "\U{2139}"
  const InfoEmoji := "\U{2139}\U{FE0F}"
  const Bullet := "\U{2022}"

  /**
   * `getIcon`: nothing when icons are off; otherwise a symbol per role in
   * the theme's icon style, a celebration for success under the "zh"
   * theme, and a bullet for the two roles without an icon of their own.
   */
  function GetIcon(showIcon: bool, role: Role, t: Theme): Option<string>
  {
    if !showIcon then None
    else
      var eastern := t.preferences.errorIconStyle == Eastern;
      match role
      case Error => Some(if eastern then WarningSign else CrossMark)
      case Warning => Some(if eastern then Caution else WarningSign)
      case Success =>
        if t.locale == "zh" then Some(PartyPopper)
        else Some(if eastern then CheckMark else CheckBox)
      case Info => Some(if eastern then InfoPlain else InfoEmoji)
      case Primary => Some(Bullet)
      case Secondary => Some(Bullet)
  }

  /**
   * The icon an alert shows under the theme resolved for a locale, stated
   * by locale code: eastern symbols exactly for "zh" and "ja", the
   * celebration exactly for "zh", and no icon when icons are off.
   */
  lemma IconsByLocale(showIcon: bool, role: Role, locale: string)
    ensures !showIcon ==> GetIcon(showIcon, role, Resolve(locale)) == None
    ensures showIcon ==> GetIcon(showIcon, role, Resolve(locale)) == Some(
      var eastern := locale == "zh" || locale == "ja";
      match role
      case Error => if eastern then WarningSign else CrossMark
      case Warning => if eastern then Caution else WarningSign
      case Success => if locale == "zh" then PartyPopper else if eastern then CheckMark else CheckBox
      case Info => if eastern then InfoPlain else InfoEmoji
      case Primary => Bullet
      case Secondary => Bullet)
  {
    ResolvedIconStyle(locale);
    ResolveKeepsCodeIffRegistered(locale);
    RegistryKeys();
  }

  /** Within one theme the four feedback roles get four different icons. */
  lemma FeedbackIconsDistinct(t: Theme, a: Role, b: Role)
    requires a in {Error, Warning, Success, Info} && b in {Error, Warning, Success, Info}
    requires a != b
    ensures GetIcon(true, a, t) != GetIcon(true, b, t)
  {
    assert CrossMark[0] != WarningSign[0] && CrossMark[0] != CheckBox[0] && CrossMark[0] != InfoEmoji[0];
    assert WarningSign[0] != CheckBox[0] && WarningSign[0] != InfoEmoji[0] && CheckBox[0] != InfoEmoji[0];
    assert WarningSign[0] != Caution[0] && WarningSign[0] != CheckMark[0] && WarningSign[0] != InfoPlain[0];
    assert WarningSign[0] != PartyPopper[0] && Caution[0] != PartyPopper[0] && InfoPlain[0] != PartyPopper[0];
    assert Caution[0] != CheckMark[0] && Caution[0] != InfoPlain[0] && CheckMark[0] != InfoPlain[0];
    assert CrossMark[0] != PartyPopper[0] && CheckBox[0] != PartyPopper[0] && InfoEmoji[0] != PartyPopper[0];
  }

  /** The same symbol means error under the eastern style and warning under the western one. */
  lemma ErrorAndWarningShareASymbol(eastern: Theme, western: Theme)
    requires eastern.preferences.errorIconStyle == Eastern && western.preferences.errorIconStyle == Western
    ensures GetIcon(true, Error, eastern) == GetIcon(true, Warning, western) == Some(WarningSign)
  {
  }

  /** `getAlertClasses`: the light background and light border utilities of the role. */
  function AlertClasses(role: Role): string
  {
    BgColorClass(role) + "-light" + " " + "border" + " " + BorderColorClass(role) + "-light"
  }

  /**
   * The alert's class string is three classes: the role's light
   * background, a border, and the role's light border colour.
   */
  lemma AlertClassTokens(role: Role)
    ensures Split(AlertClasses(role), ' ')
      == [BgColorClass(role) + "-light", "border", BorderColorClass(role) + "-light"]
  {
    RoleNameHasNoSpace(role);
    NotInConcat(' ', "bg-cultural-", RoleName(role));
    NotInConcat(' ', BgColorClass(role), "-light");
    NotInConcat(' ', "border-cultural-", RoleName(role));
    NotInConcat(' ', BorderColorClass(role), "-light");
    ThreeClasses(AlertClasses(role), BgColorClass(role) + "-light", "border", BorderColorClass(role) + "-light");
  }

  /** A class string of three space-free classes splits into those classes. */
  lemma ThreeClasses(s: string, a: string, b: string, c: string)
    requires ' ' !in a && ' ' !in b && ' ' !in c
    requires s == a + " " + b + " " + c
    ensures Split(s, ' ') == [a, b, c]
  {
    SplitThree(a, b, c, ' ');
  }

  /** Different roles give different alert classes. */
  lemma AlertClassesDetermineRole(a: Role, b: Role)
    requires AlertClasses(a) == AlertClasses(b)
    ensures a == b
  {
    AlertClassTokens(a);
    AlertClassTokens(b);
    var x, y := BgColorClass(a) + "-light", BgColorClass(b) + "-light";
    assert x == y;
    assert x[..|x| - 6] == BgColorClass(a) && y[..|y| - 6] == BgColorClass(b);
    ClassNamesDetermineRole(a);
    ClassNamesDetermineRole(b);
  }

  /** The alert's whole class list: fixed spacing utilities, the role's classes, then the caller's class. */
  function AlertClassList(role: Role, className: string): seq<string>
  {
    ["p-3 rounded-lg border", AlertClasses(role), className]
  }

  /** The inline style: the theme's direction, and the role's colour at 10% and 30% opacity. */
  datatype AlertStyle = AlertStyle(direction: LayoutDirection, backgroundColor: string, borderColor: string)

  function Style(role: Role, t: Theme): AlertStyle
  {
    AlertStyle(t.preferences.layoutDirection, RgbVar(StyleVar(role), "0.1"), RgbVar(StyleVar(role), "0.3"))
  }

  /** `rgb(<channels> / <alpha>)`. */
  function RgbAlpha(channels: string, alpha: string): string
  {
    "rgb(" + channels + " / " + alpha + ")"
  }

  /** `rgb(var(<property>) / <alpha>)`. */
  function RgbVar(property: string, alpha: string): string
  {
    RgbAlpha("var(" + property + ")", alpha)
  }

  /** What `RgbVar(property, alpha)` reads once the root style is in place: the property's value in place of the `var(...)`. */
  function Substitute(rootStyle: map<string, string>, property: string, alpha: string): Option<string>
  {
    if property in rootStyle then Some(RgbAlpha(rootStyle[property], alpha)) else None
  }

  /** On a page showing a theme, the role's `var(...)` reference reads the role's projected colour. */
  lemma ShownVariableReads(d: Document, t: Theme, role: Role, alpha: string)
    requires d.Shows(t)
    ensures Substitute(d.rootStyle, StyleVar(role), alpha)
      == Some(RgbAlpha(CssVariableValue(t.preferences.colors.Of(role)), alpha))
  {
    StyleVarDeterminesRole(role);
  }

  /**
   * Once the provider shows a theme whose colour for the role is written
   * `rgb(r, g, b)` (as every registered theme's colour is), both colours of
   * the alert read that colour's channels, space-separated as the
   * `rgb(<r> <g> <b> / <alpha>)` syntax needs.
   */
  lemma StyleResolves(d: Document, t: Theme, role: Role, rs: string, gs: string, bs: string)
    requires IsChannelText(rs) && IsChannelText(gs) && IsChannelText(bs)
    requires d.Shows(t) && t.preferences.colors.Of(role) == RgbText(rs, gs, bs)
    ensures var channels := rs + " " + gs + " " + bs;
      Substitute(d.rootStyle, StyleVar(role), "0.1") == Some(RgbAlpha(channels, "0.1"))
      && Substitute(d.rootStyle, StyleVar(role), "0.3") == Some(RgbAlpha(channels, "0.3"))
  {
    RgbProjection(rs, gs, bs);
    ShownVariableReads(d, t, role, "0.1");
    ShownVariableReads(d, t, role, "0.3");
  }

  /** The alert's direction is the resolved theme's: "rtl" exactly for "ar". */
  lemma StyleDirection(locale: string, role: Role)
    ensures Style(role, Resolve(locale)).direction == Rtl <==> locale == "ar"
  {
    ResolvedDirection(locale);
  }
}
