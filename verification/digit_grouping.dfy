/**
 * The thousands-grouping step of the number formatter: the global replace of
 * the pattern `\B(?=(\d{3})+(?!\d))` by the separator, modelled position by
 * position over an arbitrary string, and a right-to-left grouping of a digit
 * string that it agrees with on signed integers.
 */
module DigitGrouping {
  import opened JsText

  /** The regular-expression word characters `[A-Za-z0-9_]`. */
  predicate IsWordChar(c: char)
  {
    IsDigit(c) || 'a' <= c <= 'z' || 'A' <= c <= 'Z' || c == '_'
  }

  /** `\b` holds at position `p` (between `s[p - 1]` and `s[p]`). */
  predicate AtWordBoundary(s: string, p: nat)
    requires p <= |s|
  {
    (p > 0 && IsWordChar(s[p - 1])) != (p < |s| && IsWordChar(s[p]))
  }

  /** Number of consecutive digits starting at `p`. */
  function DigitRun(s: string, p: nat): (k: nat)
    requires p <= |s|
    ensures p + k <= |s|
    ensures forall i :: p <= i < p + k ==> IsDigit(s[i])
    ensures p + k < |s| ==> !IsDigit(s[p + k])
    decreases |s| - p
  {
    if p < |s| && IsDigit(s[p]) then 1 + DigitRun(s, p + 1) else 0
  }

  /** `(\d{3}){m}(?!\d)` matches at `p`: exactly `3m` digits follow `p`, then a non-digit or the end. */
  ghost predicate GroupsThenNonDigit(s: string, p: nat, m: nat)
    requires p <= |s|
  {
    && p + 3 * m <= |s|
    && (forall i :: p <= i < p + 3 * m ==> IsDigit(s[i]))
    && (p + 3 * m == |s| || !IsDigit(s[p + 3 * m]))
  }

  /** The lookahead `(?=(\d{3})+(?!\d))` succeeds exactly when the digit run at `p` is a positive multiple of 3. */
  lemma LookaheadIsRunMultipleOfThree(s: string, p: nat)
    requires p <= |s|
    ensures (exists m: nat :: 1 <= m && GroupsThenNonDigit(s, p, m))
        <==> (DigitRun(s, p) > 0 && DigitRun(s, p) % 3 == 0)
  {
    var k := DigitRun(s, p);
    if k > 0 && k % 3 == 0 {
      assert GroupsThenNonDigit(s, p, k / 3);
    }
    forall m: nat | 1 <= m && GroupsThenNonDigit(s, p, m)
      ensures k == 3 * m
    {
      RunExact(s, p, 3 * m);
    }
  }

  /** A run of exactly `j` digits, ended by a non-digit or the end of the string. */
  lemma {:induction false} RunExact(s: string, p: nat, j: nat)
    requires p + j <= |s|
    requires forall i :: p <= i < p + j ==> IsDigit(s[i])
    requires p + j == |s| || !IsDigit(s[p + j])
    ensures DigitRun(s, p) == j
    decreases j
  {
    if j > 0 {
      RunExact(s, p + 1, j - 1);
    }
  }

  /** The whole pattern `\B(?=(\d{3})+(?!\d))` matches the empty string at `p`. */
  predicate SeparatorMatchAt(s: string, p: nat)
    requires p <= |s|
  {
    !AtWordBoundary(s, p) && DigitRun(s, p) > 0 && DigitRun(s, p) % 3 == 0
  }

  /**
   * The text a replacement string stands for at one match, as the
   * GetSubstitution operation of ECMA-262 expands it for a pattern with one
   * capture group and no named groups: `$$` is a dollar sign, `$&` the
   * (empty) match, `` $` `` the text before it, `$'` the text after it, `$1`
   * and `$01` the capture; any other `$` is kept as written.
   */
  function Expand(rep: string, before: string, after: string, group: string): (r: string)
    ensures '$' !in rep ==> r == rep
    decreases |rep|
  {
    if rep == [] then []
    else if rep[0] != '$' || |rep| == 1 then [rep[0]] + Expand(rep[1..], before, after, group)
    else if rep[1] == '$' then "$" + Expand(rep[2..], before, after, group)
    else if rep[1] == '&' then Expand(rep[2..], before, after, group)
    else if rep[1] == '`' then before + Expand(rep[2..], before, after, group)
    else if rep[1] == '\'' then after + Expand(rep[2..], before, after, group)
    else if rep[1] == '1' then group + Expand(rep[2..], before, after, group)
    else if rep[1] == '0' && |rep| >= 3 && rep[2] == '1' then group + Expand(rep[3..], before, after, group)
    else [rep[0], rep[1]] + Expand(rep[2..], before, after, group)
  }

  /**
   * What is inserted at a matching position `p`: the separator expanded with
   * the text around `p`; the capture `(\d{3})` holds the last three digits
   * of the run, its final iteration.
   */
  function Replacement(s: string, sep: string, p: nat): (r: string)
    requires p <= |s| && SeparatorMatchAt(s, p)
    ensures '$' !in sep ==> r == sep
  {
    var k := DigitRun(s, p);
    Expand(sep, s[..p], s[p..], s[p + k - 3..p + k])
  }

  /** The replace applied to the first `q` characters: the replacement before every matching position. */
  function ReplaceUpTo(s: string, sep: string, q: nat): string
    requires q <= |s|
  {
    if q == 0 then []
    else ReplaceUpTo(s, sep, q - 1) + (if SeparatorMatchAt(s, q - 1) then Replacement(s, sep, q - 1) else []) + [s[q - 1]]
  }

  /** `s.replace(/\B(?=(\d{3})+(?!\d))/g, sep)`. */
  function InsertSeparators(s: string, sep: string): string
  {
    ReplaceUpTo(s, sep, |s|) + (if SeparatorMatchAt(s, |s|) then Replacement(s, sep, |s|) else [])
  }

  /** A separator holding `$` patterns is not inserted as written: "$$" inserts a single "$". */
  lemma DollarSeparator()
    ensures InsertSeparators("1234", "$$") == "1$234"
  {
    var s := "1234";
    RunToEnd(s, 1, 0);
    assert SeparatorMatchAt(s, 1);
    assert Replacement(s, "$$", 1) == "$";
    SeparatorPositions(false, s, 0);
    SeparatorPositions(false, s, 2);
    SeparatorPositions(false, s, 3);
    SeparatorPositions(false, s, 4);
  }

  /** The replace of a longer prefix extends the replace of a shorter one. */
  lemma {:induction false} ReplaceExtends(s: string, sep: string, q: nat, q': nat)
    requires q <= q' <= |s|
    ensures ReplaceUpTo(s, sep, q) <= ReplaceUpTo(s, sep, q')
    decreases q' - q
  {
    if q < q' {
      ReplaceExtends(s, sep, q, q' - 1);
    }
  }

  /** On a negative integer the replace starts with the sign and the first digit, whatever the separator. */
  lemma SignAndFirstDigitKept(ds: string, sep: string)
    requires |ds| >= 1 && AllDigits(ds)
    ensures var s := SignText(true) + ds; s[..2] <= InsertSeparators(s, sep)
  {
    var s := SignText(true) + ds;
    SeparatorPositions(true, ds, 0);
    SeparatorPositions(true, ds, 1);
    SeparatorPositions(true, ds, |s|);
    ReplaceWithoutMatches(s, sep, 2);
    ReplaceExtends(s, sep, 2, |s|);
    assert InsertSeparators(s, sep) == ReplaceUpTo(s, sep, |s|) + [];
  }

  /** A digit string grouped from the right into threes, joined by `sep`. */
  function GroupDigits(ds: string, sep: string): string
  {
    if |ds| <= 3 then ds else GroupDigits(ds[..|ds| - 3], sep) + sep + ds[|ds| - 3..]
  }

  /** `"-"` for a negative number, `""` otherwise. */
  function SignText(negative: bool): string
  {
    if negative then "-" else ""
  }

  /**
   * In the integer part of a number (an optional "-" followed by digits), the
   * pattern matches exactly at the positions inside the digits that have a
   * positive multiple of three digits to their right: never right after the
   * sign, never at either end.
   */
  lemma {:induction false} SeparatorPositions(negative: bool, ds: string, p: nat)
    requires |ds| >= 1 && AllDigits(ds)
    requires p <= |SignText(negative) + ds|
    ensures var o := |SignText(negative)|;
      (SeparatorMatchAt(SignText(negative) + ds, p) <==> (o < p < o + |ds| && (o + |ds| - p) % 3 == 0))
  {
    var s := SignText(negative) + ds;
    var o := |SignText(negative)|;
    if p < o {
      assert s[p] == '-';
    } else {
      RunToEnd(s, p, o);
      if p == o {
        assert IsWordChar(s[p]);
        assert p > 0 ==> s[p - 1] == '-';
      } else if p < o + |ds| {
        assert IsWordChar(s[p - 1]) && IsWordChar(s[p]);
      }
    }
  }

  /** Past position `o` the string is all digits, so the run reaches the end. */
  lemma {:induction false} RunToEnd(s: string, p: nat, o: nat)
    requires o <= p <= |s|
    requires forall i :: o <= i < |s| ==> IsDigit(s[i])
    ensures DigitRun(s, p) == |s| - p
    decreases |s| - p
  {
    if p < |s| {
      RunToEnd(s, p + 1, o);
    }
  }

  /** Where no position before `q` matches, the replace copies the prefix. */
  lemma {:induction false} ReplaceWithoutMatches(s: string, sep: string, q: nat)
    requires q <= |s|
    requires forall p :: 0 <= p < q ==> !SeparatorMatchAt(s, p)
    ensures ReplaceUpTo(s, sep, q) == s[..q]
  {
    if q > 0 {
      ReplaceWithoutMatches(s, sep, q - 1);
      assert s[..q] == s[..q - 1] + [s[q - 1]];
    }
  }

  /** Two strings with the same prefix and the same matches there replace that prefix alike. */
  lemma {:induction false} ReplaceAgrees(s: string, t: string, sep: string, q: nat)
    requires q <= |s| && q <= |t| && s[..q] == t[..q]
    requires '$' !in sep
    requires forall p :: 0 <= p < q ==> (SeparatorMatchAt(s, p) <==> SeparatorMatchAt(t, p))
    ensures ReplaceUpTo(s, sep, q) == ReplaceUpTo(t, sep, q)
  {
    if q > 0 {
      assert s[..q - 1] == t[..q - 1] by {
        assert s[..q - 1] == s[..q][..q - 1];
        assert t[..q - 1] == t[..q][..q - 1];
      }
      assert s[q - 1] == s[..q][q - 1] == t[..q][q - 1] == t[q - 1];
      ReplaceAgrees(s, t, sep, q - 1);
    }
  }

  /**
   * The regular-expression replace on a signed digit string is the sign
   * followed by the digits grouped from the right, for a separator without
   * `$` patterns (which is inserted as written).
   */
  lemma InsertSeparatorsGroups(negative: bool, ds: string, sep: string)
    requires |ds| >= 1 && AllDigits(ds)
    requires '$' !in sep
    ensures InsertSeparators(SignText(negative) + ds, sep) == SignText(negative) + GroupDigits(ds, sep)
  {
    var s := SignText(negative) + ds;
    SeparatorPositions(negative, ds, |s|);
    ReplaceGroups(negative, ds, sep);
  }

  /** The replace over every position of a signed digit string, by induction on the digits. */
  lemma {:induction false} ReplaceGroups(negative: bool, ds: string, sep: string)
    requires |ds| >= 1 && AllDigits(ds)
    requires '$' !in sep
    ensures var s := SignText(negative) + ds;
      ReplaceUpTo(s, sep, |s|) == SignText(negative) + GroupDigits(ds, sep)
    decreases |ds|
  {
    if |ds| <= 3 {
      ShortWithoutSeparators(negative, ds, sep);
    } else {
      ReplaceGroups(negative, ds[..|ds| - 3], sep);
      GroupStep(negative, ds, sep);
    }
  }

  /** The inductive step: grouping the digits but the last three, then the last group. */
  lemma GroupStep(negative: bool, ds: string, sep: string)
    requires |ds| > 3 && AllDigits(ds) && '$' !in sep
    requires var t := SignText(negative) + ds[..|ds| - 3];
      ReplaceUpTo(t, sep, |t|) == SignText(negative) + GroupDigits(ds[..|ds| - 3], sep)
    ensures var s := SignText(negative) + ds;
      ReplaceUpTo(s, sep, |s|) == SignText(negative) + GroupDigits(ds, sep)
  {
    var n := |ds|;
    var s := SignText(negative) + ds;
    var head := ds[..n - 3];
    var t := SignText(negative) + head;
    ShorterPrefixAgrees(negative, ds, sep);
    LastGroup(negative, ds, sep);
    assert |t| == |s| - 3;
    Regroup(ReplaceUpTo(s, sep, |s|), ReplaceUpTo(s, sep, |t|), ReplaceUpTo(t, sep, |t|),
      SignText(negative), GroupDigits(head, sep), GroupDigits(ds, sep), sep, ds[n - 3..]);
  }

  /** Re-associates the pieces of the inductive step (kept apart so the solver sees plain strings). */
  lemma Regroup(whole: string, prefix: string, prefix': string, sign: string,
                g: string, g': string, sep: string, tail: string)
    requires whole == prefix + sep + tail && prefix == prefix' && prefix' == sign + g
    requires g' == g + sep + tail
    ensures whole == sign + g'
  {
  }

  /** Three digits or fewer get no separator. */
  lemma ShortWithoutSeparators(negative: bool, ds: string, sep: string)
    requires 1 <= |ds| <= 3 && AllDigits(ds)
    ensures var s := SignText(negative) + ds; ReplaceUpTo(s, sep, |s|) == s
  {
    var s := SignText(negative) + ds;
    forall p | 0 <= p < |s| ensures !SeparatorMatchAt(s, p) {
      SeparatorPositions(negative, ds, p);
    }
    ReplaceWithoutMatches(s, sep, |s|);
    assert s[..|s|] == s;
  }

  /** Dropping the last three digits does not change how the rest is grouped. */
  lemma ShorterPrefixAgrees(negative: bool, ds: string, sep: string)
    requires |ds| > 3 && AllDigits(ds)
    requires '$' !in sep
    ensures var t := SignText(negative) + ds[..|ds| - 3];
      ReplaceUpTo(SignText(negative) + ds, sep, |t|) == ReplaceUpTo(t, sep, |t|)
  {
    var s := SignText(negative) + ds;
    var n := |ds|;
    var head := ds[..n - 3];
    var t := SignText(negative) + head;
    forall p | 0 <= p < |t|
      ensures SeparatorMatchAt(s, p) <==> SeparatorMatchAt(t, p)
    {
      SeparatorPositions(negative, ds, p);
      SeparatorPositions(negative, head, p);
    }
    assert s[..|t|] == t;
    assert t[..|t|] == t;
    ReplaceAgrees(s, t, sep, |t|);
  }

  /** The last three digits are preceded by one separator and contain none. */
  lemma LastGroup(negative: bool, ds: string, sep: string)
    requires |ds| > 3 && AllDigits(ds)
    requires '$' !in sep
    ensures var s := SignText(negative) + ds;
      ReplaceUpTo(s, sep, |s|) == ReplaceUpTo(s, sep, |s| - 3) + sep + ds[|ds| - 3..]
  {
    var s := SignText(negative) + ds;
    var m := |s|;
    LastMatches(negative, ds);
    ThreeStepReplace(s, sep, m);
    assert s[m - 3..m] == ds[|ds| - 3..];
  }

  /** Three positions of which only the first matches: one separator, then the three characters. */
  lemma ThreeStepReplace(s: string, sep: string, m: nat)
    requires 3 <= m <= |s| && '$' !in sep
    requires SeparatorMatchAt(s, m - 3) && !SeparatorMatchAt(s, m - 2) && !SeparatorMatchAt(s, m - 1)
    ensures ReplaceUpTo(s, sep, m) == ReplaceUpTo(s, sep, m - 3) + sep + s[m - 3..m]
  {
    var r0 := ReplaceUpTo(s, sep, m - 3);
    var r1 := ReplaceUpTo(s, sep, m - 2);
    var r2 := ReplaceUpTo(s, sep, m - 1);
    var r3 := ReplaceUpTo(s, sep, m);
    var tail := s[m - 3..m];
    assert r1 == r0 + sep + [tail[0]] by { ReplaceStep(s, sep, m - 2, r0, sep); }
    assert r2 == r1 + [] + [tail[1]] by { ReplaceStep(s, sep, m - 1, r1, []); }
    assert r3 == r2 + [] + [tail[2]] by { ReplaceStep(s, sep, m, r2, []); }
    AppendThree(r0 + sep, r1, r2, r3, tail);
  }

  /** Appending three characters one at a time appends the three together. */
  lemma AppendThree(r0: string, r1: string, r2: string, r3: string, tail: string)
    requires |tail| == 3
    requires r1 == r0 + [tail[0]] && r2 == r1 + [] + [tail[1]] && r3 == r2 + [] + [tail[2]]
    ensures r3 == r0 + tail
  {
  }

  /** Of the last four positions of a signed digit string, only the first matches. */
  lemma LastMatches(negative: bool, ds: string)
    requires |ds| > 3 && AllDigits(ds)
    ensures var s := SignText(negative) + ds; var m := |s|;
      SeparatorMatchAt(s, m - 3) && !SeparatorMatchAt(s, m - 2) && !SeparatorMatchAt(s, m - 1)
  {
    var m := |SignText(negative) + ds|;
    SeparatorPositions(negative, ds, m - 3);
    SeparatorPositions(negative, ds, m - 2);
    SeparatorPositions(negative, ds, m - 1);
  }

  /** One more position of the replace: what is inserted there, then the character. */
  lemma ReplaceStep(s: string, sep: string, q: nat, before: string, inserted: string)
    requires 0 < q <= |s| && '$' !in sep
    requires ReplaceUpTo(s, sep, q - 1) == before
    requires inserted == if SeparatorMatchAt(s, q - 1) then sep else []
    ensures ReplaceUpTo(s, sep, q) == before + inserted + [s[q - 1]]
  {
  }

  /** Keeps the digits of `s`, dropping every other character. */
  function KeepDigits(s: string): (r: string)
    ensures AllDigits(r)
  {
    if s == [] then [] else KeepDigits(s[..|s| - 1]) + (if IsDigit(s[|s| - 1]) then [s[|s| - 1]] else [])
  }

  lemma {:induction false} KeepDigitsAppend(a: string, b: string)
    ensures KeepDigits(a + b) == KeepDigits(a) + KeepDigits(b)
    decreases |b|
  {
    if b != [] {
      var ab := a + b;
      KeepDigitsAppend(a, b[..|b| - 1]);
      assert ab[..|ab| - 1] == a + b[..|b| - 1];
      assert ab[|ab| - 1] == b[|b| - 1];
      var last := if IsDigit(b[|b| - 1]) then [b[|b| - 1]] else [];
      calc {
        KeepDigits(ab);
        KeepDigits(a + b[..|b| - 1]) + last;
        KeepDigits(a) + KeepDigits(b[..|b| - 1]) + last;
        KeepDigits(a) + (KeepDigits(b[..|b| - 1]) + last);
        KeepDigits(a) + KeepDigits(b);
      }
    } else {
      assert a + b == a;
    }
  }

  lemma {:induction false} KeepDigitsOfDigits(s: string)
    requires AllDigits(s)
    ensures KeepDigits(s) == s
  {
    if s != [] {
      KeepDigitsOfDigits(s[..|s| - 1]);
      assert s == s[..|s| - 1] + [s[|s| - 1]];
    }
  }

  /**
   * Grouping only adds separators: with a separator that holds no digit,
   * deleting the separators gives back the original digits.
   */
  lemma {:induction false} GroupDigitsKeepsDigits(ds: string, sep: string)
    requires AllDigits(ds)
    requires KeepDigits(sep) == []
    ensures KeepDigits(GroupDigits(ds, sep)) == ds
    decreases |ds|
  {
    if |ds| <= 3 {
      KeepDigitsOfDigits(ds);
    } else {
      var head, tail := ds[..|ds| - 3], ds[|ds| - 3..];
      GroupDigitsKeepsDigits(head, sep);
      KeepDigitsOfDigits(tail);
      KeepDigitsOfThree(GroupDigits(ds, sep), GroupDigits(head, sep), sep, tail, head, [], tail);
      assert head + [] + tail == ds;
    }
  }

  /** `KeepDigits` of three pieces, from what it leaves of each. */
  lemma KeepDigitsOfThree(r: string, a: string, b: string, c: string, ka: string, kb: string, kc: string)
    requires r == a + b + c
    requires KeepDigits(a) == ka && KeepDigits(b) == kb && KeepDigits(c) == kc
    ensures KeepDigits(r) == ka + kb + kc
  {
    var ab := a + b;
    KeepDigitsAppend(a, b);
    KeepDigitsAppend(ab, c);
    assert r == ab + c;
  }

  /** Groups of three: every separator-free piece but the first has exactly three digits. */
  lemma {:induction false} GroupDigitsShape(ds: string, sep: string)
    ensures |ds| <= 3 ==> GroupDigits(ds, sep) == ds
    ensures |ds| > 3 ==> exists head :: GroupDigits(ds, sep) == head + sep + ds[|ds| - 3..]
    ensures |GroupDigits(ds, sep)| == |ds| + (if |ds| == 0 then 0 else (|ds| - 1) / 3) * |sep|
    ensures |ds| >= 1 ==> GroupDigits(ds, sep)[0] == ds[0]
    decreases |ds|
  {
    if |ds| > 3 {
      var head := ds[..|ds| - 3];
      GroupDigitsShape(head, sep);
      var g := GroupDigits(head, sep);
      assert GroupDigits(ds, sep) == g + sep + ds[|ds| - 3..];
      var k := (|head| - 1) / 3;
      assert |g| == |head| + k * |sep|;
      assert (|ds| - 1) / 3 == k + 1;
      assert (k + 1) * |sep| == k * |sep| + |sep|;
      assert g[0] == head[0] == ds[0];
    }
  }
}
