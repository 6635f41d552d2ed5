/**
 * The cultural theme record: six semantic colour roles, the formatting
 * rules, and the descriptive layout hints.
 */
module CulturalTypes {

  /** The six semantic colour roles (the keys of the colour record). */
  datatype Role = Error | Warning | Success | Info | Primary | Secondary

  const AllRoles: seq<Role> := [Error, Warning, Success, Info, Primary, Secondary]

  /** The key under which a role appears in the colour record and in class names. */
  function RoleName(r: Role): string
  {
    match r
    case Error => "error"
    case Warning => "warning"
    case Success => "success"
    case Info => "info"
    case Primary => "primary"
    case Secondary => "secondary"
  }

  /** Inverse of `RoleName`: the role keyed by a name, if any. */
  function RoleNamed(name: string): (r: Option<Role>)
    ensures r.Some? ==> RoleName(r.value) == name
  {
    if name == "error" then Some(Error)
    else if name == "warning" then Some(Warning)
    else if name == "success" then Some(Success)
    else if name == "info" then Some(Info)
    else if name == "primary" then Some(Primary)
    else if name == "secondary" then Some(Secondary)
    else None
  }

  /** Every role is named, and distinct roles have distinct names. */
  lemma RoleNameRoundTrip(r: Role)
    ensures RoleNamed(RoleName(r)) == Some(r)
  {
  }

  /** Role names are single words, so they can sit inside space-separated class lists. */
  lemma RoleNameHasNoSpace(r: Role)
    ensures ' ' !in RoleName(r)
  {
  }

  datatype Option<+T> = None | Some(value: T)

  datatype CurrencyPosition = Before | After
  datatype TimeFormat = H12 | H24
  datatype LayoutDirection = Ltr | Rtl
  datatype ReadingPattern = ZPattern | FPattern | Vertical
  datatype ContentDensity = Comfortable | Compact | Spacious
  datatype ErrorIconStyle = Western | Eastern

  /** The CSS spelling of a layout direction ("ltr" / "rtl"). */
  function DirectionName(d: LayoutDirection): string
  {
    match d
    case Ltr => "ltr"
    case Rtl => "rtl"
  }

  /** One colour string (for example "rgb(239, 68, 68)") per role. */
  datatype Colors = Colors(
    error: string, warning: string, success: string,
    info: string, primary: string, secondary: string)
  {
    function Of(r: Role): string
    {
      match r
      case Error => error
      case Warning => warning
      case Success => success
      case Info => info
      case Primary => primary
      case Secondary => secondary
    }
  }

  /** `dateFormat` stays an open string: any template not recognised falls back. */
  datatype Formatting = Formatting(
    dateFormat: string,
    thousandsSeparator: string,
    decimalSeparator: string,
    currencyPosition: CurrencyPosition,
    timeFormat: TimeFormat)

  datatype Preferences = Preferences(
    colors: Colors,
    formatting: Formatting,
    errorIconStyle: ErrorIconStyle,
    layoutDirection: LayoutDirection,
    readingPattern: ReadingPattern,
    contentDensity: ContentDensity)

  datatype Theme = Theme(locale: string, culturalRegion: string, preferences: Preferences)
}
