/**
 * The user card: the age computed from the birth date and today's date,
 * the id shown through `formatNumber(parseInt(id))`, and the two dates
 * shown through `formatDate`.
 */
module UserCard {
  import opened JsText
  import opened CulturalTypes
  import opened DigitGrouping
  import opened Formatters
  import opened CulturalContext
  import opened UserApi

  /**
   * `calculateAge`: the difference of the years, one less when today falls
   * before the birthday in the calendar year (an earlier month, or the same
   * month and an earlier day).
   */
  function CalculateAge(birth: Date, today: Date): int
  {
    var age := today.year - birth.year;
    var monthDiff := today.month - birth.month;
    if monthDiff < 0 || (monthDiff == 0 && today.day < birth.day) then age - 1 else age
  }

  /** Calendar order on (year, month, day). */
  predicate OnOrBefore(a: Date, b: Date)
  {
    a.year < b.year
    || (a.year == b.year && (a.month < b.month || (a.month == b.month && a.day <= b.day)))
  }

  /** The `n`-th anniversary of `birth` has been reached by `today`. */
  predicate AnniversaryReached(birth: Date, today: Date, n: int)
  {
    OnOrBefore(Date(birth.year + n, birth.month, birth.day), today)
  }

  /**
   * The age is the number of completed years: the anniversary for that age
   * has been reached, the next one has not.
   */
  lemma AgeIsCompletedYears(birth: Date, today: Date)
    ensures AnniversaryReached(birth, today, CalculateAge(birth, today))
    ensures !AnniversaryReached(birth, today, CalculateAge(birth, today) + 1)
  {
  }

  /** The age is the year difference or one less; on the birthday itself it is the year difference. */
  lemma AgeAroundYearDifference(birth: Date, today: Date)
    ensures var diff := today.year - birth.year;
      CalculateAge(birth, today) == diff || CalculateAge(birth, today) == diff - 1
    ensures today.month == birth.month && today.day == birth.day ==>
      CalculateAge(birth, today) == today.year - birth.year
  {
  }

  /** The completed-years characterisation determines the age: no other count satisfies it. */
  lemma AgeUnique(birth: Date, today: Date, n: int)
    requires AnniversaryReached(birth, today, n) && !AnniversaryReached(birth, today, n + 1)
    ensures n == CalculateAge(birth, today)
  {
    AgeIsCompletedYears(birth, today);
    var a := CalculateAge(birth, today);
    if n < a {
      AnniversaryMonotone(birth, today, n + 1, a);
    } else if n > a {
      AnniversaryMonotone(birth, today, a + 1, n);
    }
  }

  /** Reaching a later anniversary means having reached every earlier one. */
  lemma AnniversaryMonotone(birth: Date, today: Date, m: int, n: int)
    requires m <= n && AnniversaryReached(birth, today, n)
    ensures AnniversaryReached(birth, today, m)
  {
  }

  predicate IsHexDigit(c: char)
  {
    IsDigit(c) || 'a' <= c <= 'f' || 'A' <= c <= 'F'
  }

  function HexValue(c: char): (d: nat)
    requires IsHexDigit(c)
    ensures d < 16
  {
    if IsDigit(c) then DigitValue(c)
    else if 'a' <= c <= 'f' then (c as int) - ('a' as int) + 10
    else (c as int) - ('A' as int) + 10
  }

  /** Length of the prefix of `s` made of characters satisfying the digit class. */
  function DigitPrefixLength(s: string, hex: bool): (k: nat)
    ensures k <= |s|
    ensures forall i :: 0 <= i < k ==> (if hex then IsHexDigit(s[i]) else IsDigit(s[i]))
    ensures k < |s| ==> !(if hex then IsHexDigit(s[k]) else IsDigit(s[k]))
  {
    if s != [] && (if hex then IsHexDigit(s[0]) else IsDigit(s[0])) then 1 + DigitPrefixLength(s[1..], hex) else 0
  }

  /** Value of a string of hexadecimal digits, read left to right. */
  function HexDigitsValue(s: string): nat
    requires forall i :: 0 <= i < |s| ==> IsHexDigit(s[i])
  {
    if s == [] then 0 else HexDigitsValue(s[..|s| - 1]) * 16 + HexValue(s[|s| - 1])
  }

  /**
   * The digits after the sign: a "0x"/"0X" prefix selects hexadecimal,
   * otherwise decimal digits are read; either way as far as they go, and
   * `None` when there is no digit at all.
   */
  function ParseMagnitude(u: string): (r: Option<nat>)
  {
    var hex := |u| >= 2 && u[0] == '0' && (u[1] == 'x' || u[1] == 'X');
    var body := if hex then u[2..] else u;
    var k := DigitPrefixLength(body, hex);
    if k == 0 then None
    else Some(if hex then HexDigitsValue(body[..k]) else DigitsValue(body[..k]))
  }

  /**
   * `parseInt(s)` with no radix: leading whitespace skipped, an optional
   * sign, then the magnitude; `None` is `NaN`.
   */
  function ParseInt(s: string): (r: Option<int>)
  {
    var t := s[LeadingWhitespace(s)..];
    if |t| >= 1 && t[0] == '-' then
      match ParseMagnitude(t[1..])
      case Some(m) => Some(0 - m as int)
      case None => None
    else if |t| >= 1 && t[0] == '+' then
      match ParseMagnitude(t[1..])
      case Some(m) => Some(m)
      case None => None
    else
      match ParseMagnitude(t)
      case Some(m) => Some(m)
      case None => None
  }

  /** A string of decimal digits whose second character is not 'x' reads as its decimal value. */
  lemma MagnitudeOfDigits(id: string)
    requires |id| >= 1 && AllDigits(id)
    ensures ParseMagnitude(id) == Some(DigitsValue(id))
  {
    assert |id| >= 2 ==> IsDigit(id[1]);
    var k := DigitPrefixLength(id, false);
    assert k == |id|;
    assert id[..k] == id;
  }

  /** A decimal id with no leading zero reads back as the number it writes. */
  lemma ParseIntCanonical(id: string)
    requires |id| >= 1 && AllDigits(id) && (|id| > 1 ==> id[0] != '0')
    ensures ParseInt(id) == Some(DigitsValue(id))
    ensures NatToString(DigitsValue(id)) == id
  {
    assert IsDigit(id[0]);
    assert LeadingWhitespace(id) == 0;
    assert id[0..] == id;
    MagnitudeOfDigits(id);
    NatToStringOfValue(id);
  }

  /** `formatNumber(parseInt(id))`: a parsed id formatted as an integer, `NaN` as the text "NaN". */
  function IdDisplay(f: Formatting, id: string): string
  {
    match ParseInt(id)
    case Some(n) => FormatNumber(f, IntegerText(n))
    case None => FormatNumberText("NaN", f.thousandsSeparator, f.decimalSeparator)
  }

  /** A text without digits passes through the grouping replace unchanged. */
  lemma InsertSeparatorsWithoutDigits(s: string, sep: string)
    requires forall i :: 0 <= i < |s| ==> !IsDigit(s[i])
    ensures InsertSeparators(s, sep) == s
  {
    forall p | 0 <= p <= |s|
      ensures !SeparatorMatchAt(s, p)
    {
      assert p < |s| ==> !IsDigit(s[p]);
    }
    ReplaceWithoutMatches(s, sep, |s|);
    assert s[..|s|] == s;
  }

  /** An id that does not parse is shown as "NaN". */
  lemma UnparsableIdShowsNaN(f: Formatting, id: string)
    requires ParseInt(id).None?
    ensures IdDisplay(f, id) == "NaN"
  {
    assert forall i :: 0 <= i < |"NaN"| ==> "NaN"[i] != '.';
    SplitWithout("NaN", '.');
    InsertSeparatorsWithoutDigits("NaN", f.thousandsSeparator);
  }

  /** A canonical decimal id is formatted as the whole number those digits write. */
  lemma CanonicalIdText(f: Formatting, id: string)
    requires |id| >= 1 && AllDigits(id) && (|id| > 1 ==> id[0] != '0')
    ensures IdDisplay(f, id) == FormatNumber(f, NumberText(false, id, ""))
  {
    ParseIntCanonical(id);
  }

  /**
   * A canonical decimal id is shown grouped in threes with the theme's
   * separator: unchanged up to three digits, and the same digits in the
   * same order in any case.
   */
  lemma CanonicalIdDisplay(f: Formatting, id: string)
    requires |id| >= 1 && AllDigits(id) && (|id| > 1 ==> id[0] != '0')
    requires KeepDigits(f.thousandsSeparator) == [] && KeepDigits(f.decimalSeparator) == []
    requires '$' !in f.thousandsSeparator
    ensures IdDisplay(f, id) == GroupDigits(id, f.thousandsSeparator)
    ensures |id| <= 3 ==> IdDisplay(f, id) == id
    ensures KeepDigits(IdDisplay(f, id)) == id
  {
    CanonicalIdText(f, id);
    var n := NumberText(false, id, "");
    assert n.Valid();
    FormatNumberShape(f, n);
    assert SignText(false) == "";
    GroupDigitsShape(id, f.thousandsSeparator);
    FormatNumberKeepsDigits(f, n);
    assert id + "" == id;
  }

  /** What the card shows for a user, under a context value and today's date. */
  datatype CardView = CardView(
    idText: string, age: int, birthDateText: string, createdAtText: string, direction: LayoutDirection)

  function RenderCard(ctx: ContextValue, user: User, today: Date): (v: CardView)
    ensures v.direction == ctx.currentTheme.preferences.layoutDirection
  {
    CardView(
      IdDisplay(ctx.Rules(), user.id),
      CalculateAge(user.birthDate, today),
      ctx.FormatDate(user.birthDate),
      ctx.FormatDate(user.createdAt),
      ctx.currentTheme.preferences.layoutDirection)
  }

  /** Under the provider's value for a locale, the card is right to left exactly for "ar". */
  lemma CardDirection(locale: string, user: User, today: Date)
    ensures RenderCard(ContextFor(locale), user, today).direction == Rtl <==> locale == "ar"
  {
    ResolvedDirection(locale);
  }

  /** Both dates on the card can be read back, with the theme's template, as the user's dates. */
  lemma CardDatesReadBack(ctx: ContextValue, user: User, today: Date)
    requires user.birthDate.year >= 0 && user.birthDate.month < 100 && user.birthDate.day < 100
    requires user.createdAt.year >= 0 && user.createdAt.month < 100 && user.createdAt.day < 100
    ensures var v := RenderCard(ctx, user, today);
      ParseDate(LayoutOf(ctx.Rules().dateFormat), v.birthDateText) == Some(user.birthDate)
      && ParseDate(LayoutOf(ctx.Rules().dateFormat), v.createdAtText) == Some(user.createdAt)
  {
    DateRoundTrip(ctx.Rules(), user.birthDate);
    DateRoundTrip(ctx.Rules(), user.createdAt);
  }
}
