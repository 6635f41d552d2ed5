/**
 * The button component: a size and a variant chosen by string, each with
 * a fallback branch, class names built from the role's utilities, and the
 * theme's direction.
 */
module CulturalButton {
  import opened JsText
  import opened CulturalTypes
  import opened Formatters
  import opened CulturalContext

  /** The props as passed; `None` is an omitted prop, which takes its default. */
  datatype ButtonProps = ButtonProps(
    role: Option<Role>, variant: Option<string>, size: Option<string>,
    disabled: Option<bool>, className: Option<string>)

  /** The props after the defaults of the parameter list are applied. */
  datatype Settings = Settings(role: Role, variant: string, size: string, disabled: bool, className: string)

  function OrElse<T>(o: Option<T>, default: T): T
  {
    match o
    case Some(v) => v
    case None => default
  }

  function WithDefaults(p: ButtonProps): Settings
  {
    Settings(OrElse(p.role, Primary), OrElse(p.variant, "solid"), OrElse(p.size, "md"),
      OrElse(p.disabled, false), OrElse(p.className, ""))
  }

  /** A prop that is given is kept; an omitted one becomes a medium, solid, enabled primary button with no extra class. */
  lemma DefaultsFillOnlyOmitted(p: ButtonProps)
    ensures p.role.Some? ==> WithDefaults(p).role == p.role.value
    ensures p.role.None? ==> WithDefaults(p).role == Primary
    ensures p.variant.Some? ==> WithDefaults(p).variant == p.variant.value
    ensures p.variant.None? ==> WithDefaults(p).variant == "solid"
    ensures p.size.Some? ==> WithDefaults(p).size == p.size.value
    ensures p.size.None? ==> WithDefaults(p).size == "md"
    ensures WithDefaults(p).disabled <==> p.disabled == Some(true)
    ensures p.className.Some? ==> WithDefaults(p).className == p.className.value
    ensures p.className.None? ==> WithDefaults(p).className == ""
  {
  }

  /** `getSizeClasses`: padding and text size per size, medium for anything unrecognised. */
  function SizeClasses(size: string): string
  {
    if size == "sm" then "px-3 py-1.5 text-sm"
    else if size == "md" then "px-4 py-2 text-base"
    else if size == "lg" then "px-6 py-3 text-lg"
    else "px-4 py-2 text-base"
  }

  /** An unrecognised size looks like "md"; the three sizes look different from each other. */
  lemma SizeFallback(size: string)
    ensures size !in {"sm", "md", "lg"} ==> SizeClasses(size) == SizeClasses("md")
    ensures SizeClasses("sm") != SizeClasses("md") && SizeClasses("md") != SizeClasses("lg")
      && SizeClasses("sm") != SizeClasses("lg")
  {
    assert SizeClasses("sm")[3] == '3' && SizeClasses("md")[3] == '4' && SizeClasses("lg")[3] == '6';
  }

  /**
   * `getVariantClasses`: the role's utilities in the variant's arrangement,
   * solid for anything unrecognised. The class string is the classes
   * joined by single spaces.
   */
  function VariantClassList(variant: string, role: Role): seq<string>
  {
    if variant == "outline" then
      ["border-2", BorderColorClass(role), TextColorClass(role), "bg-transparent",
       "hover:" + BgColorClass(role), "hover:text-white"]
    else if variant == "ghost" then
      [TextColorClass(role), "bg-transparent", "hover:" + BgColorClass(role) + "-light"]
    else
      [BgColorClass(role), "text-white", "hover:opacity-90"]
  }

  function VariantClasses(variant: string, role: Role): string
  {
    Join(VariantClassList(variant, role), " ")
  }

  /** An unrecognised variant looks like "solid". */
  lemma VariantFallback(variant: string, role: Role)
    ensures variant !in {"solid", "outline", "ghost"} ==>
      VariantClasses(variant, role) == VariantClasses("solid", role)
  {
  }

  /** No class of a variant contains a space. */
  lemma VariantClassesSpaceFree(variant: string, role: Role)
    ensures forall i :: 0 <= i < |VariantClassList(variant, role)| ==> ' ' !in VariantClassList(variant, role)[i]
  {
    RoleNameHasNoSpace(role);
    NotInConcat(' ', "bg-cultural-", RoleName(role));
    NotInConcat(' ', "hover:", BgColorClass(role));
    if variant == "outline" {
      NotInConcat(' ', "text-cultural-", RoleName(role));
      NotInConcat(' ', "border-cultural-", RoleName(role));
    } else if variant == "ghost" {
      NotInConcat(' ', "text-cultural-", RoleName(role));
      NotInConcat(' ', "hover:" + BgColorClass(role), "-light");
    }
  }

  /**
   * The class string reads back as its classes: solid is the role's
   * background, outline the role's border and text colour (its background
   * on hover), ghost the role's text colour (its light background on hover).
   */
  lemma VariantClassTokens(variant: string, role: Role)
    ensures Split(VariantClasses(variant, role), ' ') == VariantClassList(variant, role)
    ensures variant == "outline" ==> Split(VariantClasses(variant, role), ' ')[1] == BorderColorClass(role)
    ensures variant == "ghost" ==> Split(VariantClasses(variant, role), ' ')[0] == TextColorClass(role)
    ensures variant != "outline" && variant != "ghost" ==>
      Split(VariantClasses(variant, role), ' ')[0] == BgColorClass(role)
  {
    VariantClassesSpaceFree(variant, role);
    SplitJoin(VariantClassList(variant, role), ' ');
  }

  /** Within a variant, the classes determine the role. */
  lemma VariantDeterminesRole(variant: string, a: Role, b: Role)
    requires VariantClasses(variant, a) == VariantClasses(variant, b)
    ensures a == b
  {
    VariantClassTokens(variant, a);
    VariantClassTokens(variant, b);
    ClassNamesDetermineRole(a);
    ClassNamesDetermineRole(b);
  }

  /** The button's whole class list: size, variant, the fixed utilities, then the caller's class. */
  function ButtonClassList(s: Settings): seq<string>
  {
    [SizeClasses(s.size), VariantClasses(s.variant, s.role),
     "rounded-lg font-medium transition-all duration-200",
     "disabled:opacity-50 disabled:cursor-not-allowed",
     s.className]
  }

  /** What the button renders: its classes, its `disabled` attribute and its direction. */
  datatype ButtonView = ButtonView(classes: seq<string>, disabled: bool, direction: LayoutDirection)

  function RenderButton(p: ButtonProps, t: Theme): (v: ButtonView)
    ensures v.classes == ButtonClassList(WithDefaults(p))
    ensures v.direction == t.preferences.layoutDirection
  {
    var s := WithDefaults(p);
    ButtonView(ButtonClassList(s), s.disabled, t.preferences.layoutDirection)
  }

  /**
   * A button with no props is a medium solid primary button, enabled, laid
   * out in the resolved theme's direction ("rtl" exactly for "ar").
   */
  lemma DefaultButton(locale: string)
    ensures var v := RenderButton(ButtonProps(None, None, None, None, None), Resolve(locale));
      v.classes[0] == SizeClasses("md")
      && Split(v.classes[1], ' ') == [BgColorClass(Primary), "text-white", "hover:opacity-90"]
      && !v.disabled
      && (v.direction == Rtl <==> locale == "ar")
  {
    VariantClassTokens("solid", Primary);
    ResolvedDirection(locale);
  }

  /** Whatever its props, a button is laid out right to left exactly under "ar". */
  lemma ButtonDirection(p: ButtonProps, locale: string)
    ensures RenderButton(p, Resolve(locale)).direction == Rtl <==> locale == "ar"
  {
    ResolvedDirection(locale);
  }
}
