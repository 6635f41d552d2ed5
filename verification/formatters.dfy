/**
 * The formatter engine: number, date and currency formatting driven by a
 * theme's formatting rules, and the role-to-class-name helpers.
 */
module Formatters {
  import opened JsText
  import opened DigitGrouping
  import opened CulturalTypes

  /**
   * The text `num.toString()` produces for a finite number in plain decimal
   * notation: an optional sign, the integer digits and the fraction digits
   * (empty when the number is whole).
   */
  datatype NumberText = NumberText(negative: bool, whole: string, fraction: string)
  {
    predicate Valid()
    {
      |whole| >= 1 && AllDigits(whole) && AllDigits(fraction)
    }

    function ToJsString(): string
    {
      SignText(negative) + whole + (if fraction == [] then "" else "." + fraction)
    }
  }

  /** An integer as `toString` writes it (no "-0": zero is never negative). */
  function IntegerText(n: int): (t: NumberText)
    ensures t.Valid() && t.fraction == [] && t.negative == (n < 0)
  {
    NumberText(n < 0, NatToString(if n < 0 then -n else n), "")
  }

  /**
   * `formatNumber` applied to the text of the number: split on ".", replace
   * the grouping pattern in the first part, and rejoin with the decimal
   * separator only when the second part is non-empty.
   */
  function FormatNumberText(text: string, thousands: string, decimal: string): string
  {
    var parts := Split(text, '.');
    Rejoin(parts[0 := InsertSeparators(parts[0], thousands)], decimal)
  }

  /** `if (parts[1]) return parts.join(decimal); return parts[0];` */
  function Rejoin(parts: seq<string>, decimal: string): string
    requires |parts| >= 1
  {
    if |parts| > 1 && parts[1] != "" then Join(parts, decimal) else parts[0]
  }

  function FormatNumber(f: Formatting, n: NumberText): string
  {
    FormatNumberText(n.ToJsString(), f.thousandsSeparator, f.decimalSeparator)
  }

  /**
   * What `formatNumber` writes: the sign, the integer digits grouped in
   * threes from the right, then the decimal separator and the unchanged
   * fraction digits, or nothing at all for a whole number. The separator is
   * inserted as written when it holds no `$` replacement pattern.
   */
  lemma FormatNumberShape(f: Formatting, n: NumberText)
    requires n.Valid() && '$' !in f.thousandsSeparator
    ensures FormatNumber(f, n)
      == SignText(n.negative) + GroupDigits(n.whole, f.thousandsSeparator)
         + (if n.fraction == [] then "" else f.decimalSeparator + n.fraction)
  {
    var intPart := SignText(n.negative) + n.whole;
    SplitNumberText(n);
    FormatNumberTextOf(n.ToJsString(), f.thousandsSeparator, f.decimalSeparator, intPart, n.fraction);
    InsertSeparatorsGroups(n.negative, n.whole, f.thousandsSeparator);
  }

  /** `formatNumber` on a text whose split at "." is known. */
  lemma FormatNumberTextOf(text: string, thousands: string, decimal: string, intPart: string, fraction: string)
    requires Split(text, '.') == if fraction == [] then [intPart] else [intPart, fraction]
    ensures FormatNumberText(text, thousands, decimal)
      == InsertSeparators(intPart, thousands) + (if fraction == [] then "" else decimal + fraction)
  {
    var grouped := InsertSeparators(intPart, thousands);
    var parts' := Split(text, '.')[0 := grouped];
    if fraction != [] {
      assert parts' == [grouped, fraction];
      assert Join(parts', decimal) == grouped + decimal + Join(parts'[1..], decimal);
    } else {
      assert parts' == [grouped];
    }
  }

  /** The text of a number splits at "." into its integer part and, if any, its fraction. */
  lemma SplitNumberText(n: NumberText)
    requires n.Valid()
    ensures Split(n.ToJsString(), '.')
      == if n.fraction == [] then [SignText(n.negative) + n.whole]
         else [SignText(n.negative) + n.whole, n.fraction]
  {
    var intPart := SignText(n.negative) + n.whole;
    assert forall i :: 0 <= i < |intPart| ==> intPart[i] == '-' || IsDigit(intPart[i]);
    if n.fraction == [] {
      assert n.ToJsString() == intPart;
      SplitWithout(intPart, '.');
    } else {
      assert n.ToJsString() == intPart + ['.'] + n.fraction;
      SplitAfterPiece(intPart, '.', n.fraction);
      SplitWithout(n.fraction, '.');
    }
  }

  /** A whole number of at most three digits is written as it is, whatever the separator. */
  lemma NoGroupingUpToThreeDigits(f: Formatting, n: NumberText)
    requires n.Valid() && |n.whole| <= 3 && n.fraction == []
    ensures FormatNumber(f, n) == SignText(n.negative) + n.whole
  {
    var intPart := SignText(n.negative) + n.whole;
    SplitNumberText(n);
    FormatNumberTextOf(n.ToJsString(), f.thousandsSeparator, f.decimalSeparator, intPart, n.fraction);
    ShortWithoutSeparators(n.negative, n.whole, f.thousandsSeparator);
    SeparatorPositions(n.negative, n.whole, |intPart|);
  }

  /** Nothing is ever written between the minus sign and the first digit, whatever the separator. */
  lemma NoSeparatorAfterSign(f: Formatting, n: NumberText)
    requires n.Valid() && n.negative
    ensures |FormatNumber(f, n)| >= 2 && FormatNumber(f, n)[..2] == "-" + n.whole[..1]
  {
    var intPart := SignText(n.negative) + n.whole;
    SplitNumberText(n);
    FormatNumberTextOf(n.ToJsString(), f.thousandsSeparator, f.decimalSeparator, intPart, n.fraction);
    SignAndFirstDigitKept(n.whole, f.thousandsSeparator);
    PrefixOfPieces(intPart[..2], InsertSeparators(intPart, f.thousandsSeparator), FormatNumber(f, n));
    assert intPart[..2] == "-" + n.whole[..1];
  }

  /** A prefix of a prefix of `r` is a prefix of `r`, and is its first characters. */
  lemma PrefixOfPieces(p: string, q: string, r: string)
    requires p <= q && q <= r
    ensures |r| >= |p| && r[..|p|] == p
  {
  }

  /**
   * Deleting everything but digits from the formatted number gives back the
   * integer digits followed by the fraction digits, provided neither
   * separator contains a digit.
   */
  lemma FormatNumberKeepsDigits(f: Formatting, n: NumberText)
    requires n.Valid() && '$' !in f.thousandsSeparator
    requires KeepDigits(f.thousandsSeparator) == [] && KeepDigits(f.decimalSeparator) == []
    ensures KeepDigits(FormatNumber(f, n)) == n.whole + n.fraction
  {
    var sign, grouped := SignText(n.negative), GroupDigits(n.whole, f.thousandsSeparator);
    var tail := if n.fraction == [] then "" else f.decimalSeparator + n.fraction;
    FormatNumberShape(f, n);
    GroupDigitsKeepsDigits(n.whole, f.thousandsSeparator);
    SignHasNoDigits(n.negative);
    FractionTailDigits(f.decimalSeparator, n.fraction);
    DigitFreeFirst(FormatNumber(f, n), sign, grouped, tail, n.whole, n.fraction);
  }

  /** `KeepDigits` of three pieces of which the first holds no digit. */
  lemma DigitFreeFirst(r: string, a: string, b: string, c: string, kb: string, kc: string)
    requires r == a + b + c
    requires KeepDigits(a) == [] && KeepDigits(b) == kb && KeepDigits(c) == kc
    ensures KeepDigits(r) == kb + kc
  {
    var ab := a + b;
    KeepDigitsAppend(a, b);
    assert KeepDigits(ab) == kb;
    KeepDigitsAppend(ab, c);
    assert r == ab + c;
  }

  lemma SignHasNoDigits(negative: bool)
    ensures KeepDigits(SignText(negative)) == []
  {
    if negative {
      assert KeepDigits("-") == KeepDigits("") + [];
    }
  }

  lemma FractionTailDigits(decimal: string, fraction: string)
    requires KeepDigits(decimal) == [] && AllDigits(fraction)
    ensures KeepDigits(if fraction == [] then "" else decimal + fraction) == fraction
  {
    if fraction != [] {
      KeepDigitsAppend(decimal, fraction);
      KeepDigitsOfDigits(fraction);
    }
  }

  /** A calendar date as the local getters read it: full year, month 1-12, day of month. */
  datatype Date = Date(year: int, month: nat, day: nat)

  /** `n.toString().padStart(2, "0")`. */
  function Pad2(n: nat): string
  {
    PadStart(NatToString(n), 2, '0')
  }

  /** Below 100 the padded field is exactly two digits and reads back as the number. */
  lemma Pad2Value(n: nat)
    requires n < 100
    ensures |Pad2(n)| == 2 && AllDigits(Pad2(n)) && DigitsValue(Pad2(n)) == n
  {
    NatToStringValue(n);
    var t := NatToString(n);
    if n < 10 {
      assert Pad2(n) == ['0'] + t;
      assert Pad2(n)[..1] == ['0'];
    } else {
      assert t == NatToString(n / 10) + [DigitChar(n % 10)];
      assert |t| == 2;
    }
  }

  /**
   * The arrangement a template selects: month first or day first with a
   * separator, or year first with the CJK unit characters.
   */
  datatype DateLayout = MonthFirst(sep: char) | DayFirst(sep: char) | YearFirst

  /** `switch (dateFormat)`: the four templates, and "DD/MM/YYYY" for anything else. */
  function LayoutOf(template: string): DateLayout
  {
    if template == "MM/DD/YYYY" then MonthFirst('/')
    else if template == "DD/MM/YYYY" then DayFirst('/')
    else if template == "DD.MM.YYYY" then DayFirst('.')
    else if template == "YYYY年MM月DD日" then YearFirst
    else DayFirst('/')
  }

  /** Places the day, month (both zero-padded to two digits) and year text in a layout. */
  function Render(layout: DateLayout, day: string, month: string, year: string): string
  {
    match layout
    case MonthFirst(sep) => month + [sep] + day + [sep] + year
    case DayFirst(sep) => day + [sep] + month + [sep] + year
    case YearFirst => year + "年" + month + "月" + day + "日"
  }

  /**
   * `formatDate`: day and month zero-padded to two digits, the year as
   * written by `toString`, placed by the theme's template.
   */
  function FormatDate(f: Formatting, d: Date): string
  {
    Render(LayoutOf(f.dateFormat), Pad2(d.day), Pad2(d.month), IntToString(d.year))
  }

  /** Reads the digits of a field back, if they are digits at all. */
  function FieldValue(s: string): Option<nat>
  {
    if |s| >= 1 && AllDigits(s) then Some(DigitsValue(s)) else None
  }

  /** Reads three fields `a`, `b`, `c` out of `aa<sep>bb<sep>c...`. */
  function ParseTwoTwoRest(s: string, sep: char): Option<(nat, nat, nat)>
  {
    if |s| >= 7 && s[2] == sep && s[5] == sep then
      match (FieldValue(s[..2]), FieldValue(s[3..5]), FieldValue(s[6..]))
      case (Some(a), Some(b), Some(c)) => Some((a, b, c))
      case _ => None
    else None
  }

  /** Reads year, month and day out of `y...年mm月dd日`. */
  function ParseYearFirst(s: string): Option<(nat, nat, nat)>
  {
    if |s| >= 8 && s[|s| - 7] == '年' && s[|s| - 4] == '月' && s[|s| - 1] == '日' then
      match (FieldValue(s[..|s| - 7]), FieldValue(s[|s| - 6..|s| - 4]), FieldValue(s[|s| - 3..|s| - 1]))
      case (Some(y), Some(m), Some(d)) => Some((y, m, d))
      case _ => None
    else None
  }

  /**
   * An independent reader for the date layouts: takes the fields back out
   * of a formatted date by their fixed positions.
   */
  function ParseDate(layout: DateLayout, s: string): Option<Date>
  {
    match layout
    case MonthFirst(sep) =>
      (match ParseTwoTwoRest(s, sep)
       case Some((m, d, y)) => Some(Date(y, m, d))
       case None => None)
    case DayFirst(sep) =>
      (match ParseTwoTwoRest(s, sep)
       case Some((d, m, y)) => Some(Date(y, m, d))
       case None => None)
    case YearFirst =>
      (match ParseYearFirst(s)
       case Some((y, m, d)) => Some(Date(y, m, d))
       case None => None)
  }

  /**
   * Formatting a date and reading it back with the same template gives the
   * date: every template (and the fallback) keeps all three fields.
   */
  lemma DateRoundTrip(f: Formatting, d: Date)
    requires d.year >= 0 && d.month < 100 && d.day < 100
    ensures ParseDate(LayoutOf(f.dateFormat), FormatDate(f, d)) == Some(d)
  {
    var day, month, year := Pad2(d.day), Pad2(d.month), IntToString(d.year);
    Pad2Value(d.day);
    Pad2Value(d.month);
    NatToStringValue(d.year);
    assert year == NatToString(d.year);
    RenderParse(LayoutOf(f.dateFormat), day, month, year);
  }

  /** Reading a rendered date gives back the values of its three fields. */
  lemma RenderParse(layout: DateLayout, day: string, month: string, year: string)
    requires |day| == 2 && |month| == 2 && |year| >= 1
    requires AllDigits(day) && AllDigits(month) && AllDigits(year)
    ensures ParseDate(layout, Render(layout, day, month, year))
      == Some(Date(DigitsValue(year), DigitsValue(month), DigitsValue(day)))
  {
    match layout
    case MonthFirst(sep) => ReadTwoTwoRest(month, day, year, sep);
    case DayFirst(sep) => ReadTwoTwoRest(day, month, year, sep);
    case YearFirst => ReadYearMonthDay(year, month, day);
  }

  lemma ReadTwoTwoRest(a: string, b: string, y: string, sep: char)
    requires |a| == 2 && |b| == 2 && |y| >= 1 && AllDigits(a) && AllDigits(b) && AllDigits(y)
    ensures ParseTwoTwoRest(a + [sep] + b + [sep] + y, sep)
      == Some((DigitsValue(a), DigitsValue(b), DigitsValue(y)))
  {
    var s := a + [sep] + b + [sep] + y;
    assert |s| >= 7 && s[2] == sep && s[5] == sep;
    assert s[..2] == a;
    assert s[3..5] == b;
    assert s[6..] == y;
    assert FieldValue(s[..2]) == Some(DigitsValue(a));
    assert FieldValue(s[3..5]) == Some(DigitsValue(b));
    assert FieldValue(s[6..]) == Some(DigitsValue(y));
  }

  lemma ReadYearMonthDay(y: string, m: string, d: string)
    requires |y| >= 1 && |m| == 2 && |d| == 2 && AllDigits(y) && AllDigits(m) && AllDigits(d)
    ensures ParseYearFirst(y + "年" + m + "月" + d + "日")
      == Some((DigitsValue(y), DigitsValue(m), DigitsValue(d)))
  {
    var s := y + "年" + m + "月" + d + "日";
    PiecesAtTheEnd(s, y, m, d, '年', '月', '日');
  }

  /** Where the pieces of `y a mm b dd c` sit, counted from the end. */
  lemma PiecesAtTheEnd(s: string, y: string, m: string, d: string, a: char, b: char, c: char)
    requires |m| == 2 && |d| == 2 && s == y + [a] + m + [b] + d + [c]
    ensures |s| == |y| + 7
    ensures s[|s| - 7] == a && s[|s| - 4] == b && s[|s| - 1] == c
    ensures s[..|s| - 7] == y && s[|s| - 6..|s| - 4] == m && s[|s| - 3..|s| - 1] == d
  {
  }

  /** `formatCurrency`: the symbol glued before the number, or after it with one space. */
  function FormatCurrency(f: Formatting, amount: NumberText, symbol: string): string
  {
    var formatted := FormatNumber(f, amount);
    if f.currencyPosition == Before then symbol + formatted else formatted + " " + symbol
  }

  /**
   * The currency string is the formatted amount with the symbol attached on
   * the theme's side: cutting the symbol (and the space) off gives back
   * exactly `formatNumber(amount)`.
   */
  lemma CurrencyAmountRecoverable(f: Formatting, amount: NumberText, symbol: string)
    ensures var r := FormatCurrency(f, amount, symbol);
      f.currencyPosition == Before ==>
        |r| >= |symbol| && r[..|symbol|] == symbol && r[|symbol|..] == FormatNumber(f, amount)
    ensures var r := FormatCurrency(f, amount, symbol);
      f.currencyPosition == After ==>
        |r| > |symbol| && r[|r| - |symbol| - 1..] == " " + symbol
        && r[..|r| - |symbol| - 1] == FormatNumber(f, amount)
  {
  }

  /** The currency string holds the amount's digits in order, next to the symbol's own digits. */
  lemma CurrencyKeepsDigits(f: Formatting, amount: NumberText, symbol: string)
    requires amount.Valid() && '$' !in f.thousandsSeparator
    requires KeepDigits(f.thousandsSeparator) == [] && KeepDigits(f.decimalSeparator) == []
    ensures f.currencyPosition == Before ==>
      KeepDigits(FormatCurrency(f, amount, symbol)) == KeepDigits(symbol) + amount.whole + amount.fraction
    ensures f.currencyPosition == After ==>
      KeepDigits(FormatCurrency(f, amount, symbol)) == amount.whole + amount.fraction + KeepDigits(symbol)
  {
    var formatted := FormatNumber(f, amount);
    FormatNumberKeepsDigits(f, amount);
    var digits := amount.whole + amount.fraction;
    if f.currencyPosition == Before {
      KeepDigitsAppend(symbol, formatted);
    } else {
      assert KeepDigits(" ") == KeepDigits("") + [];
      KeepDigitsOfThree(FormatCurrency(f, amount, symbol), formatted, " ", symbol, digits, [], KeepDigits(symbol));
      assert digits + [] + KeepDigits(symbol) == digits + KeepDigits(symbol);
    }
  }

  // The class-name helpers echo the role name into a naming convention and
  // never look at the theme's colour values.

  function ColorClass(r: Role): string { "cultural-" + RoleName(r) }

  function TextColorClass(r: Role): string { "text-cultural-" + RoleName(r) }

  function BgColorClass(r: Role): string { "bg-cultural-" + RoleName(r) }

  function BorderColorClass(r: Role): string { "border-cultural-" + RoleName(r) }

  /**
   * Each helper's class name determines the role: removing its fixed prefix
   * leaves the role's key, which names that role and no other.
   */
  lemma ClassNamesDetermineRole(r: Role)
    ensures RoleNamed(ColorClass(r)[|"cultural-"|..]) == Some(r)
    ensures RoleNamed(TextColorClass(r)[|"text-cultural-"|..]) == Some(r)
    ensures RoleNamed(BgColorClass(r)[|"bg-cultural-"|..]) == Some(r)
    ensures RoleNamed(BorderColorClass(r)[|"border-cultural-"|..]) == Some(r)
  {
    RoleNameRoundTrip(r);
    assert ColorClass(r)[|"cultural-"|..] == RoleName(r);
    assert TextColorClass(r)[|"text-cultural-"|..] == RoleName(r);
    assert BgColorClass(r)[|"bg-cultural-"|..] == RoleName(r);
    assert BorderColorClass(r)[|"border-cultural-"|..] == RoleName(r);
  }
}
