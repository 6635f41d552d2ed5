/**
 * The two ways the theme's colours reach CSS custom properties: the
 * provider writes each colour's digit runs, space separated, onto the root
 * element (`colour.match(/\d+/g)?.join(" ")` inside a template literal),
 * while `useCulturalStyles` hands out the raw colour strings.
 */
module ColorProjection {
  import opened JsText
  import opened DigitGrouping
  import opened CulturalTypes
  import opened CulturalThemes

  /** Length of the run of digits `s` starts with. */
  function DigitPrefix(s: string): (k: nat)
    ensures k <= |s|
    ensures forall i :: 0 <= i < k ==> IsDigit(s[i])
    ensures k < |s| ==> !IsDigit(s[k])
  {
    if s != [] && IsDigit(s[0]) then 1 + DigitPrefix(s[1..]) else 0
  }

  /**
   * `s.match(/\d+/g)`: the maximal runs of digits, left to right; the empty
   * sequence stands for the `null` returned when there is no match.
   */
  function DigitRuns(s: string): (runs: seq<string>)
    ensures forall i :: 0 <= i < |runs| ==> |runs[i]| >= 1 && AllDigits(runs[i])
    decreases |s|
  {
    if s == [] then []
    else if !IsDigit(s[0]) then DigitRuns(s[1..])
    else
      var k := DigitPrefix(s);
      [s[..k]] + DigitRuns(s[k..])
  }

  function Concat(runs: seq<string>): string
  {
    if runs == [] then "" else runs[0] + Concat(runs[1..])
  }

  /** The runs hold every digit of the string, in order, and nothing else. */
  lemma {:induction false} DigitRunsKeepDigits(s: string)
    ensures Concat(DigitRuns(s)) == KeepDigits(s)
    decreases |s|
  {
    if s != [] {
      assert s == [s[0]] + s[1..];
      KeepDigitsAppend([s[0]], s[1..]);
      if !IsDigit(s[0]) {
        assert KeepDigits([s[0]]) == KeepDigits([]) + [];
        DigitRunsKeepDigits(s[1..]);
      } else {
        var k := DigitPrefix(s);
        assert s == s[..k] + s[k..];
        KeepDigitsAppend(s[..k], s[k..]);
        KeepDigitsOfDigits(s[..k]);
        DigitRunsKeepDigits(s[k..]);
      }
    }
  }

  /** A prefix without digits contributes no run. */
  lemma {:induction false} DigitRunsSkip(a: string, rest: string)
    requires forall i :: 0 <= i < |a| ==> !IsDigit(a[i])
    ensures DigitRuns(a + rest) == DigitRuns(rest)
    decreases |a|
  {
    if a != [] {
      assert (a + rest)[0] == a[0];
      assert (a + rest)[1..] == a[1..] + rest;
      DigitRunsSkip(a[1..], rest);
    } else {
      assert a + rest == rest;
    }
  }

  /** A run of digits ended by a non-digit (or the end) is one match. */
  lemma DigitRunsRun(ds: string, rest: string)
    requires |ds| >= 1 && AllDigits(ds)
    requires rest == [] || !IsDigit(rest[0])
    ensures DigitRuns(ds + rest) == [ds] + DigitRuns(rest)
  {
    var s := ds + rest;
    DigitPrefixOfRun(ds, rest);
    assert s[..|ds|] == ds && s[|ds|..] == rest;
  }

  lemma {:induction false} DigitPrefixOfRun(ds: string, rest: string)
    requires AllDigits(ds)
    requires rest == [] || !IsDigit(rest[0])
    ensures DigitPrefix(ds + rest) == |ds|
    decreases |ds|
  {
    if ds != [] {
      assert (ds + rest)[1..] == ds[1..] + rest;
      DigitPrefixOfRun(ds[1..], rest);
    } else {
      assert ds + rest == rest;
    }
  }

  /**
   * The value the provider writes for a colour: the runs joined by single
   * spaces, or the text "undefined" when the colour holds no digit at all
   * (the optional chain yields `undefined`, which the template literal
   * spells out).
   */
  function CssVariableValue(colour: string): string
  {
    var runs := DigitRuns(colour);
    if runs == [] then "undefined" else Join(runs, " ")
  }

  /** Joining digit runs with spaces and matching again gives the same runs. */
  lemma {:induction false} DigitRunsOfJoin(runs: seq<string>)
    requires forall i :: 0 <= i < |runs| ==> |runs[i]| >= 1 && AllDigits(runs[i])
    ensures DigitRuns(Join(runs, " ")) == runs
  {
    if runs == [] {
    } else if |runs| == 1 {
      DigitRunsRun(runs[0], "");
      assert runs[0] + "" == runs[0];
    } else {
      var tail := Join(runs[1..], " ");
      DigitRunsOfJoin(runs[1..]);
      assert runs[0] + " " + tail == runs[0] + (" " + tail);
      DigitRunsRun(runs[0], " " + tail);
      DigitRunsSkip(" ", tail);
      assert runs == [runs[0]] + runs[1..];
    }
  }

  /**
   * Projecting an already projected colour changes nothing: the written
   * value is a fixed point of the projection whenever the colour holds a digit.
   */
  lemma ProjectionIdempotent(colour: string)
    requires DigitRuns(colour) != []
    ensures CssVariableValue(CssVariableValue(colour)) == CssVariableValue(colour)
  {
    DigitRunsOfJoin(DigitRuns(colour));
  }

  /** A colour with no digit projects to "undefined", one with digits never does. */
  lemma UndefinedIffNoDigits(colour: string)
    ensures CssVariableValue(colour) == "undefined" <==> KeepDigits(colour) == []
  {
    DigitRunsKeepDigits(colour);
    var runs := DigitRuns(colour);
    if runs != [] {
      ConcatOfRuns(runs);
      DigitRunsOfJoin(runs);
      NoRunInUndefined();
    }
  }

  lemma ConcatOfRuns(runs: seq<string>)
    requires runs != [] && |runs[0]| >= 1
    ensures Concat(runs) != []
  {
    assert Concat(runs) == runs[0] + Concat(runs[1..]);
  }

  lemma NoRunInUndefined()
    ensures DigitRuns("undefined") == []
  {
    DigitRunsSkip("undefined", "");
    assert "undefined" + "" == "undefined";
  }

  /** A channel as written: a non-empty run of decimal digits. */
  predicate IsChannelText(s: string)
  {
    |s| >= 1 && AllDigits(s)
  }

  /** The `rgb(r, g, b)` notation every theme colour is written in, from the channels' texts. */
  function RgbText(rs: string, gs: string, bs: string): string
  {
    "rgb(" + rs + ", " + gs + ", " + bs + ")"
  }

  /** The same notation from the channel values. */
  function RgbString(r: nat, g: nat, b: nat): string
  {
    RgbText(NatToString(r), NatToString(g), NatToString(b))
  }

  /** An `rgb(r, g, b)` colour projects to its three channels, space separated. */
  lemma RgbProjection(rs: string, gs: string, bs: string)
    requires IsChannelText(rs) && IsChannelText(gs) && IsChannelText(bs)
    ensures CssVariableValue(RgbText(rs, gs, bs)) == rs + " " + gs + " " + bs
  {
    RgbRuns(rs, gs, bs);
    JoinThree(rs, gs, bs);
  }

  /** The matches in an `rgb(r, g, b)` colour are its three channels. */
  lemma RgbRuns(rs: string, gs: string, bs: string)
    requires IsChannelText(rs) && IsChannelText(gs) && IsChannelText(bs)
    ensures DigitRuns(RgbText(rs, gs, bs)) == [rs, gs, bs]
  {
    var u2 := ", " + bs + ")";
    var u1 := ", " + gs + u2;
    assert RgbText(rs, gs, bs) == "rgb(" + rs + u1;
    DigitRunsSkip(")", "");
    assert ")" + "" == ")";
    SkipThenRun(", ", bs, ")");
    SkipThenRun(", ", gs, u2);
    SkipThenRun("rgb(", rs, u1);
  }

  lemma JoinThree(a: string, b: string, c: string)
    ensures Join([a, b, c], " ") == a + " " + b + " " + c
  {
    var parts := [a, b, c];
    assert parts[1..] == [b, c] && parts[1..][1..] == [c];
    assert Join([c], " ") == c;
    assert Join([b, c], " ") == b + " " + c;
  }

  /** A digit-free prefix, a run of digits, and a rest that does not start with a digit. */
  lemma SkipThenRun(a: string, ds: string, rest: string)
    requires forall i :: 0 <= i < |a| ==> !IsDigit(a[i])
    requires |ds| >= 1 && AllDigits(ds)
    requires rest == [] || !IsDigit(rest[0])
    ensures DigitRuns(a + ds + rest) == [ds] + DigitRuns(rest)
  {
    assert a + ds + rest == a + (ds + rest);
    DigitRunsSkip(a, ds + rest);
    DigitRunsRun(ds, rest);
  }

  /** The three channel values can be read back from the projected value. */
  lemma RgbChannelsRecoverable(r: nat, g: nat, b: nat)
    ensures var parts := Split(CssVariableValue(RgbString(r, g, b)), ' ');
      |parts| == 3 && AllDigits(parts[0]) && AllDigits(parts[1]) && AllDigits(parts[2])
      && DigitsValue(parts[0]) == r && DigitsValue(parts[1]) == g && DigitsValue(parts[2]) == b
  {
    var rs, gs, bs := NatToString(r), NatToString(g), NatToString(b);
    RgbProjection(rs, gs, bs);
    NoSpaceInDigits(rs);
    NoSpaceInDigits(gs);
    NoSpaceInDigits(bs);
    SplitThree(rs, gs, bs, ' ');
    NatToStringValue(r);
    NatToStringValue(g);
    NatToStringValue(b);
  }

  lemma NoSpaceInDigits(s: string)
    requires AllDigits(s)
    ensures ' ' !in s
  {
    assert forall i :: 0 <= i < |s| ==> s[i] != ' ';
  }

  /** The seven palette colours the registry draws from. */
  const Palette: set<string> := {Red500, Amber500, Green500, Blue500, Gray500, Orange500, Indigo500}

  /** The channels of a palette colour, as written. */
  function PaletteChannels(c: string): (string, string, string)
    requires c in Palette
  {
    if c == Red500 then ("239", "68", "68")
    else if c == Amber500 then ("245", "158", "11")
    else if c == Green500 then ("34", "197", "94")
    else if c == Blue500 then ("59", "130", "246")
    else if c == Gray500 then ("107", "114", "128")
    else if c == Orange500 then ("249", "115", "22")
    else ("99", "102", "241")
  }

  /** Each palette colour is the `rgb` notation of its channels, each a number from 0 to 255. */
  lemma PaletteIsRgb(c: string)
    requires c in Palette
    ensures var (rs, gs, bs) := PaletteChannels(c);
      c == RgbText(rs, gs, bs) && IsChannelText(rs) && IsChannelText(gs) && IsChannelText(bs)
      && DigitsValue(rs) <= 255 && DigitsValue(gs) <= 255 && DigitsValue(bs) <= 255
  {
    var (rs, gs, bs) := PaletteChannels(c);
    RgbOfChannels(c, rs, gs, bs);
    ByteText(rs);
    ByteText(gs);
    ByteText(bs);
  }

  lemma RgbOfChannels(c: string, rs: string, gs: string, bs: string)
    requires c in Palette && (rs, gs, bs) == PaletteChannels(c)
    ensures c == RgbText(rs, gs, bs)
  {
    if c == Red500 {
      RedIsRgb();
    } else if c == Amber500 {
      AmberIsRgb();
    } else if c == Green500 {
      GreenIsRgb();
    } else if c == Blue500 {
      BlueIsRgb();
    } else if c == Gray500 {
      GrayIsRgb();
    } else if c == Orange500 {
      OrangeIsRgb();
    } else {
      IndigoIsRgb();
    }
  }

  lemma RedIsRgb()
    ensures Red500 == RgbText("239", "68", "68")
  {
  }

  lemma AmberIsRgb()
    ensures Amber500 == RgbText("245", "158", "11")
  {
  }

  lemma GreenIsRgb()
    ensures Green500 == RgbText("34", "197", "94")
  {
  }

  lemma BlueIsRgb()
    ensures Blue500 == RgbText("59", "130", "246")
  {
  }

  lemma GrayIsRgb()
    ensures Gray500 == RgbText("107", "114", "128")
  {
  }

  lemma OrangeIsRgb()
    ensures Orange500 == RgbText("249", "115", "22")
  {
  }

  lemma IndigoIsRgb()
    ensures Indigo500 == RgbText("99", "102", "241")
  {
  }

  /** The channel texts of the palette: digits only, each reading at most 255. */
  lemma ByteText(s: string)
    requires s in {"239", "68", "245", "158", "11", "34", "197", "94", "59", "130", "246",
                   "107", "114", "128", "249", "115", "22", "99", "102", "241"}
    ensures IsChannelText(s) && DigitsValue(s) <= 255
  {
    assert 2 <= |s| <= 3;
    assert AllDigits(s);
    assert |s| == 3 ==> s[0] < '2' || (s[0] == '2' && s[1] < '5');
    ThreeDigitBound(s);
  }

  lemma ThreeDigitBound(s: string)
    requires 1 <= |s| <= 3 && AllDigits(s)
    requires |s| == 3 ==> s[0] < '2' || (s[0] == '2' && s[1] < '5')
    ensures DigitsValue(s) <= 255
  {
    var init := s[..|s| - 1];
    assert DigitsValue(s) == DigitsValue(init) * 10 + DigitValue(s[|s| - 1]);
    if |s| == 3 {
      assert init[..1] == s[..1];
      assert DigitsValue(init) == DigitsValue(s[..1]) * 10 + DigitValue(s[1]);
      assert s[..1][..0] == [];
      assert DigitsValue(s[..1]) == DigitValue(s[0]);
    } else if |s| == 2 {
      assert init[..0] == [];
      assert DigitsValue(init) == DigitValue(s[0]);
    }
  }

  /** Every colour of every registered theme is a palette colour. */
  lemma RegistryColoursInPalette(code: string, r: Role)
    requires code in Registry
    ensures Registry[code].preferences.colors.Of(r) in Palette
  {
  }

  /** A projected `rgb` colour starts with a digit, so it never equals the colour itself. */
  lemma RgbProjectionDiffers(rs: string, gs: string, bs: string)
    requires IsChannelText(rs) && IsChannelText(gs) && IsChannelText(bs)
    ensures CssVariableValue(RgbText(rs, gs, bs)) != RgbText(rs, gs, bs)
    ensures CssVariableValue(RgbText(rs, gs, bs)) != "undefined"
  {
    RgbProjection(rs, gs, bs);
    var v := CssVariableValue(RgbText(rs, gs, bs));
    assert v[0] == rs[0];
    assert RgbText(rs, gs, bs)[0] == 'r';
    assert "undefined"[0] == 'u';
  }

  /**
   * A palette colour projects to its channel list, which is neither the
   * colour itself nor "undefined".
   */
  lemma PaletteProjection(c: string)
    requires c in Palette
    ensures var (rs, gs, bs) := PaletteChannels(c);
      CssVariableValue(c) == rs + " " + gs + " " + bs
    ensures CssVariableValue(c) != c && CssVariableValue(c) != "undefined"
  {
    PaletteIsRgb(c);
    var (rs, gs, bs) := PaletteChannels(c);
    RgbProjection(rs, gs, bs);
    RgbProjectionDiffers(rs, gs, bs);
  }

  /** The custom property a role's colour is published under. */
  function StyleVar(r: Role): string
  {
    match r
    case Error => "--cultural-error"
    case Warning => "--cultural-warning"
    case Success => "--cultural-success"
    case Info => "--cultural-info"
    case Primary => "--cultural-primary"
    case Secondary => "--cultural-secondary"
  }

  /** The six property names. */
  const StyleVars: set<string> := {
    "--cultural-error", "--cultural-warning", "--cultural-success",
    "--cultural-info", "--cultural-primary", "--cultural-secondary"}

  /** Each property name is the role's key behind the "--cultural-" prefix, so it determines the role. */
  lemma StyleVarDeterminesRole(r: Role)
    ensures StyleVar(r) in StyleVars
    ensures StyleVar(r) == "--cultural-" + RoleName(r)
    ensures RoleNamed(StyleVar(r)[|"--cultural-"|..]) == Some(r)
  {
    RoleNameRoundTrip(r);
    PrefixedName(StyleVar(r), RoleName(r));
  }

  lemma PrefixedName(v: string, name: string)
    requires v == "--cultural-" + name
    ensures v[|"--cultural-"|..] == name
  {
  }

  /** `useCulturalStyles`: each role's property mapped to the raw colour string. */
  function CulturalStyles(t: Theme): (m: map<string, string>)
    ensures m.Keys == StyleVars
    ensures forall r: Role :: m[StyleVar(r)] == t.preferences.colors.Of(r)
  {
    var c := t.preferences.colors;
    map["--cultural-error" := c.error, "--cultural-warning" := c.warning,
        "--cultural-success" := c.success, "--cultural-info" := c.info,
        "--cultural-primary" := c.primary, "--cultural-secondary" := c.secondary]
  }

  /** What the provider writes on the root element: each role's property and projected colour. */
  function ProjectedStyle(t: Theme): (m: map<string, string>)
    ensures m.Keys == StyleVars
    ensures forall r: Role :: m[StyleVar(r)] == CssVariableValue(t.preferences.colors.Of(r))
  {
    var c := t.preferences.colors;
    map["--cultural-error" := CssVariableValue(c.error),
        "--cultural-warning" := CssVariableValue(c.warning),
        "--cultural-success" := CssVariableValue(c.success),
        "--cultural-info" := CssVariableValue(c.info),
        "--cultural-primary" := CssVariableValue(c.primary),
        "--cultural-secondary" := CssVariableValue(c.secondary)]
  }

  /**
   * The hook and the provider publish the same six properties but not the
   * same values: for a registered theme the root holds the projection of
   * the hook's value, which is never the value itself nor "undefined".
   */
  lemma HookAndRootDiffer(code: string, r: Role)
    requires code in Registry
    ensures var k := StyleVar(r);
      ProjectedStyle(Registry[code])[k] == CssVariableValue(CulturalStyles(Registry[code])[k])
      && ProjectedStyle(Registry[code])[k] != CulturalStyles(Registry[code])[k]
      && ProjectedStyle(Registry[code])[k] != "undefined"
  {
    RegistryColoursInPalette(code, r);
    PaletteProjection(Registry[code].preferences.colors.Of(r));
  }
}
