/** Value coercion: Python's `float()` on text, the `clean_number` helper
    that every parser runs its values through, and `round(x, 2)`. Numbers
    are exact reals; binary floating point is not modelled. */
module Coerce {
  import opened Wrappers
  import opened Text
  import opened PyValue

  /** The value of a string of ASCII digits. */
  function DigitsValue(ds: string): nat
    requires forall i :: 0 <= i < |ds| ==> IsDigit(ds[i])
  {
    if ds == [] then 0
    else
      assert IsDigit(ds[|ds| - 1]);
      DigitsValue(ds[..|ds| - 1]) * 10 + (ds[|ds| - 1] as int - '0' as int)
  }

  /** Python's `digitpart`: digits, with single underscores between them. */
  predicate DigitPart(s: string) {
    && |s| > 0
    && IsDigit(s[0])
    && IsDigit(s[|s| - 1])
    && (forall i :: 0 <= i < |s| ==> IsDigit(s[i]) || s[i] == '_')
    && (forall i :: 0 <= i < |s| - 1 ==> s[i] == '_' ==> s[i + 1] != '_')
  }

  /** The digits of a `digitpart`, underscores dropped. */
  function PartDigits(s: string): (ds: string)
    requires DigitPart(s)
    ensures forall i :: 0 <= i < |ds| ==> IsDigit(ds[i])
  {
    var ds := Remove(s, '_');
    assert forall i :: 0 <= i < |ds| ==> ds[i] in ds;
    ds
  }

  function Pow10(e: int): (p: real)
    ensures p > 0.0
    decreases if e < 0 then -e else e
  {
    if e == 0 then 1.0 else if e > 0 then 10.0 * Pow10(e - 1) else Pow10(e + 1) / 10.0
  }

  /** `[digitpart] "." digitpart | digitpart ["."]`. */
  function ParseMantissa(m: string): Option<real> {
    match IndexOf(m, '.')
    case None =>
      if DigitPart(m) then Some(DigitsValue(PartDigits(m)) as real) else None
    case Some(j) =>
      var ip, fp := m[..j], m[j + 1..];
      if (ip == [] || DigitPart(ip)) && (fp == [] || DigitPart(fp)) && (ip != [] || fp != []) then
        var whole := if ip == [] then 0.0 else DigitsValue(PartDigits(ip)) as real;
        var frac := if fp == [] then 0.0
                    else DigitsValue(PartDigits(fp)) as real / Pow10(|PartDigits(fp)|);
        Some(whole + frac)
      else None
  }

  /** `[sign] digitpart`, the part after `e` or `E`. */
  function ParseExponent(e: string): Option<int> {
    if |e| > 0 && (e[0] == '+' || e[0] == '-') then
      if DigitPart(e[1..]) then
        var n: int := DigitsValue(PartDigits(e[1..]));
        Some(if e[0] == '-' then -n else n)
      else None
    else if DigitPart(e) then Some(DigitsValue(PartDigits(e)))
    else None
  }

  /** The position of the first `e` or `E`, if any. */
  function ExponentMark(t: string): (r: Option<nat>)
    ensures r.Some? ==> r.value < |t|
  {
    match (IndexOf(t, 'e'), IndexOf(t, 'E'))
    case (None, None) => None
    case (Some(i), None) => Some(i)
    case (None, Some(j)) => Some(j)
    case (Some(i), Some(j)) => Some(if i < j then i else j)
  }

  /** An unsigned decimal literal: mantissa and optional exponent. */
  function ParseUnsigned(t: string): Option<real> {
    match ExponentMark(t)
    case None => ParseMantissa(t)
    case Some(i) =>
      match (ParseMantissa(t[..i]), ParseExponent(t[i + 1..]))
      case (Some(m), Some(e)) => Some(m * Pow10(e))
      case _ => None
  }

  /** An optionally signed literal with no surrounding whitespace. */
  function ParseLiteral(t: string): Option<real> {
    if |t| > 0 && (t[0] == '+' || t[0] == '-') then
      match ParseUnsigned(t[1..])
      case Some(x) => Some(if t[0] == '-' then -x else x)
      case None => None
    else ParseUnsigned(t)
  }

  /** Python's `float(s)` on a str of decimal notation, surrounding
      whitespace allowed; `None` where Python raises `ValueError`. */
  function ParseFloat(s: string): Option<real> {
    ParseLiteral(Strip(s))
  }

  /** The text `clean_number` hands to `float()`: every `,` and `%` removed. */
  function Cleaned(s: string): (r: string)
    ensures ',' !in r && '%' !in r
    ensures forall c :: c != ',' && c != '%' ==> (c in r <==> c in s)
  {
    Remove(Remove(s, ','), '%')
  }

  /** `clean_number(value)`: None and "" give 0.0; other text loses its
      commas and percent signs and is parsed, 0.0 when that fails; any other
      value goes through `float()`. `None` is the `TypeError` `float()`
      raises on a list or a dict. */
  function CleanNumber(v: Json): (r: Option<real>)
    ensures r.None? <==> v.JArr? || v.JObj?
    ensures v == JNull || v == JStr("") ==> r == Some(0.0)
    ensures v.JStr? ==> r.Some?
    ensures v.JInt? ==> r == Some(v.i as real)
    ensures v.JFloat? ==> r == Some(v.x)
  {
    match v
    case JNull => Some(0.0)
    case JStr(s) =>
      if s == "" then Some(0.0)
      else Some(match ParseFloat(Cleaned(s)) case Some(x) => x case None => 0.0)
    case JBool(b) => Some(if b then 1.0 else 0.0)
    case JInt(i) => Some(i as real)
    case JFloat(x) => Some(x)
    case JArr(_) => None
    case JObj(_) => None
  }

  /** `round(x, 2)`: the nearest multiple of 0.01, ties to the even
      hundredth, computed on the exact value. */
  function Round2(x: real): (r: real)
    ensures -0.005 <= r - x <= 0.005
    ensures (r * 100.0).Floor as real == r * 100.0
  {
    var y := x * 100.0;
    var f := y.Floor;
    var frac := y - f as real;
    var n := if frac < 0.5 then f
             else if frac > 0.5 then f + 1
             else if f % 2 == 0 then f else f + 1;
    n as real / 100.0
  }

  /** Reading back the decimal digits `str()` writes for a natural number
      gives that number. */
  lemma {:induction false} DigitsValueOfNat(n: nat)
    ensures DigitsValue(NatToString(n)) == n
  {
    var s := NatToString(n);
    if n >= 10 {
      DigitsValueOfNat(n / 10);
      assert s[..|s| - 1] == NatToString(n / 10);
    }
  }

  /** A run of digits, with no sign, point or exponent, reads as its value. */
  lemma ParseDigitRun(ds: string)
    requires AllDigits(ds)
    ensures ParseUnsigned(ds) == Some(DigitsValue(ds) as real)
  {
    assert forall c :: c in "_.eE" ==> c !in ds;
    RemoveAbsent(ds, '_');
    assert DigitPart(ds);
  }

  /** A run of digits is a `digitpart` whose digits are itself. */
  lemma DigitRunPart(ds: string)
    requires AllDigits(ds)
    ensures DigitPart(ds) && PartDigits(ds) == ds
  {
    assert '_' !in ds by {
      forall i | 0 <= i < |ds| ensures ds[i] != '_' {
        assert IsDigit(ds[i]);
      }
    }
    RemoveAbsent(ds, '_');
  }

  /** The value of `w.f` for whole digits `w` and `n` fraction digits `f`. */
  function Decimal(w: nat, f: nat, n: nat): real {
    w as real + f as real / Pow10(n)
  }

  /** A mantissa whose point is at `j` and whose fraction is a `digitpart`. */
  lemma MantissaParts(m: string, j: nat)
    requires IndexOf(m, '.') == Some(j)
    requires m[..j] == [] || DigitPart(m[..j])
    requires DigitPart(m[j + 1..])
    ensures var whole := if m[..j] == [] then 0 else DigitsValue(PartDigits(m[..j]));
            var fd := PartDigits(m[j + 1..]);
            ParseMantissa(m) == Some(Decimal(whole, DigitsValue(fd), |fd|))
  {
  }

  /** A mantissa whose point is at `j`, with digit runs on either side. */
  lemma MantissaDigits(m: string, j: nat)
    requires IndexOf(m, '.') == Some(j)
    requires m[..j] == [] || AllDigits(m[..j])
    requires AllDigits(m[j + 1..])
    ensures ParseMantissa(m) == Some(Decimal(DigitsValue(m[..j]), DigitsValue(m[j + 1..]), |m[j + 1..]|))
  {
    DigitRunPart(m[j + 1..]);
    if m[..j] != [] {
      DigitRunPart(m[..j]);
    }
    MantissaParts(m, j);
  }

  /** A mantissa of digits `a` (possibly none), `.` and a digit run `d`. */
  lemma MantissaPoint(a: string, d: string)
    requires '.' !in a
    requires a == [] || AllDigits(a)
    requires AllDigits(d)
    ensures ParseMantissa(a + "." + d) == Some(Decimal(DigitsValue(a), DigitsValue(d), |d|))
  {
    var m := a + "." + d;
    assert m[..|a|] == a && m[|a| + 1..] == d;
    IndexOfFirst(m, '.', |a|);
    MantissaDigits(m, |a|);
  }

  /** Text without `e` or `E` is a mantissa alone. */
  lemma UnsignedNoExponent(t: string)
    requires 'e' !in t && 'E' !in t
    ensures ParseUnsigned(t) == ParseMantissa(t)
  {
  }

  /** Text that does not start with a sign is unsigned. */
  lemma LiteralNoSign(t: string)
    requires t == [] || (t[0] != '+' && t[0] != '-')
    ensures ParseLiteral(t) == ParseUnsigned(t)
  {
  }

  /** Digits and points hold no whitespace, sign or exponent mark. */
  lemma DecimalChars(s: string)
    requires forall i :: 0 <= i < |s| ==> IsDigit(s[i]) || s[i] == '.'
    ensures Strip(s) == s
    ensures 'e' !in s && 'E' !in s
    ensures s == [] || (s[0] != '+' && s[0] != '-')
  {
    forall i | 0 <= i < |s| ensures !IsSpace(s[i]) && s[i] != 'e' && s[i] != 'E' {
      assert '0' <= s[i] <= '9' || s[i] == '.';
    }
    StripNoSpace(s);
  }

  /** `float()` reads a decimal point: digits `a` (possibly none), `.` and a
      non-empty digit run `d` give `a` plus `d` scaled down by its length. */
  lemma ParseDecimal(a: string, d: string)
    requires forall i :: 0 <= i < |a| ==> IsDigit(a[i])
    requires AllDigits(d)
    ensures ParseFloat(a + "." + d) == Some(Decimal(DigitsValue(a), DigitsValue(d), |d|))
  {
    var s := a + "." + d;
    forall i | 0 <= i < |s| ensures IsDigit(s[i]) || s[i] == '.' {
      if i < |a| {
        assert s[i] == a[i];
      } else if i > |a| {
        assert s[i] == d[i - |a| - 1];
      }
    }
    DecimalChars(s);
    ParseFloatPlain(s);
    LiteralNoSign(s);
    UnsignedNoExponent(s);
    forall i | 0 <= i < |a| ensures a[i] != '.' {
      assert IsDigit(a[i]);
    }
    MantissaPoint(a, d);
  }

  /** `float("1234.5")` is 1234.5. */
  lemma DecimalText()
    ensures ParseFloat("1234.5") == Some(1234.5)
  {
    assert Decimal(1234, 5, 1) == 1234.5 by {
      assert Pow10(1) == 10.0;
    }
    assert "1234"[..3] == "123" && "123"[..2] == "12" && "12"[..1] == "1" && "1"[..0] == "";
    assert DigitsValue("1234") == 1234;
    assert "5"[..0] == "";
    assert DigitsValue("5") == 5;
    assert "1234.5" == "1234" + "." + "5";
    ParseDecimal("1234", "5");
  }

  /** Digits and points have nothing for `clean_number` to remove. */
  lemma PointTextClean(a: string, d: string)
    requires forall i :: 0 <= i < |a| ==> IsDigit(a[i])
    requires AllDigits(d)
    ensures Cleaned(a + "." + d) == a + "." + d
  {
    var s := a + "." + d;
    forall i | 0 <= i < |s| ensures s[i] != ',' && s[i] != '%' {
      if i < |a| {
        assert s[i] == a[i] && IsDigit(a[i]);
      } else if i > |a| {
        assert s[i] == d[i - |a| - 1] && IsDigit(d[i - |a| - 1]);
      }
    }
    RemoveAbsent(s, ',');
    RemoveAbsent(s, '%');
  }

  /** Grouped digits with a decimal point and a percent sign lose the comma
      and the percent sign and keep everything else. */
  lemma CleanedGrouped(a: string, b: string, d: string)
    requires AllDigits(a) && AllDigits(b) && AllDigits(d)
    ensures Cleaned(a + "," + b + "." + d + "%") == a + b + "." + d
  {
    var t := b + "." + d + "%";
    assert a + "," + b + "." + d + "%" == a + [','] + t;
    CleanedSeparator(a, t, ',');
    var p := a + b + "." + d;
    assert a + t == p + ['%'] + [];
    CleanedSeparator(p, [], '%');
    assert p + [] == (a + b) + "." + d;
    assert forall i :: 0 <= i < |a + b| ==> IsDigit((a + b)[i]) by {
      forall i | 0 <= i < |a + b| ensures IsDigit((a + b)[i]) {
        if i < |a| {
          assert (a + b)[i] == a[i];
        } else {
          assert (a + b)[i] == b[i - |a|];
        }
      }
    }
    PointTextClean(a + b, d);
  }

  /** `clean_number("1,234.5%")` is 1234.5: the separator and the percent
      sign are dropped and the decimal point is read. */
  lemma CleanGroupedPercent()
    ensures CleanNumber(JStr("1,234.5%")) == Some(1234.5)
  {
    assert "1,234.5%" == "1" + "," + "234" + "." + "5" + "%";
    CleanedGrouped("1", "234", "5");
    assert "1" + "234" + "." + "5" == "1234.5";
    DecimalText();
  }

  /** `float("abc")` fails: a word is not a `digitpart`. */
  lemma WordRejected()
    ensures ParseFloat("abc") == None
  {
    var t := "abc";
    assert 'e' !in t && 'E' !in t && '.' !in t;
    assert !IsSpace(t[0]) && !IsSpace(t[1]) && !IsSpace(t[2]);
    StripNoSpace(t);
    ParseFloatPlain(t);
    LiteralNoSign(t);
    UnsignedNoExponent(t);
    assert !IsDigit(t[0]);
    assert ParseMantissa(t) == None;
  }

  /** `clean_number("abc")` is 0.0: text `float()` rejects reads as zero. */
  lemma CleanNonNumeric()
    ensures CleanNumber(JStr("abc")) == Some(0.0)
  {
    var t := "abc";
    assert ',' !in t && '%' !in t;
    RemoveAbsent(t, ',');
    RemoveAbsent(t, '%');
    WordRejected();
  }

  /** Text with no separators and no whitespace is handed to `float()` as is. */
  lemma CleanedPlain(s: string)
    requires forall k :: 0 <= k < |s| ==> IsDigit(s[k]) || s[k] == '-'
    ensures Cleaned(s) == s && Strip(s) == s
  {
    assert forall c :: c in ",%" ==> c !in s;
    RemoveAbsent(s, ',');
    RemoveAbsent(s, '%');
    assert forall k :: 0 <= k < |s| ==> !IsSpace(s[k]) by {
      forall k | 0 <= k < |s| ensures !IsSpace(s[k]) {
        assert '0' <= s[k] <= '9' || s[k] == '-';
      }
    }
    StripNoSpace(s);
  }

  lemma ParseNatText(n: nat)
    ensures ParseLiteral(NatToString(n)) == Some(n as real)
  {
    DigitsValueOfNat(n);
    ParseDigitRun(NatToString(n));
  }

  lemma ParseNegativeText(n: nat)
    ensures ParseLiteral("-" + NatToString(n)) == Some(-(n as real))
  {
    var ds := NatToString(n);
    DigitsValueOfNat(n);
    ParseDigitRun(ds);
    assert ("-" + ds)[1..] == ds;
  }

  /** The decimal text of an int has no separators and no whitespace. */
  lemma IntTextPlain(i: int)
    ensures Cleaned(IntToString(i)) == IntToString(i) && Strip(IntToString(i)) == IntToString(i)
  {
    var s := IntToString(i);
    if i < 0 {
      var ds := NatToString(-i);
      assert forall k :: 0 <= k < |s| ==> IsDigit(s[k]) || s[k] == '-' by {
        forall k | 0 <= k < |s| ensures IsDigit(s[k]) || s[k] == '-' {
          if k > 0 {
            assert s[k] == ds[k - 1];
          }
        }
      }
      CleanedPlain(s);
    } else {
      CleanedPlain(s);
    }
  }

  lemma ParseLiteralIntText(i: int)
    ensures ParseLiteral(IntToString(i)) == Some(i as real)
  {
    if i < 0 {
      ParseNegativeText(-i);
    } else {
      ParseNatText(i);
    }
  }

  lemma ParseFloatPlain(s: string)
    requires Strip(s) == s
    ensures ParseFloat(s) == ParseLiteral(s)
  {
  }

  /** `float()` of the decimal text of an int is that int. */
  lemma ParseIntText(i: int)
    ensures ParseFloat(IntToString(i)) == Some(i as real)
  {
    IntTextPlain(i);
    ParseFloatPlain(IntToString(i));
    ParseLiteralIntText(i);
  }

  /** `clean_number` of the text form of an int is that int: the parser
      reads back what `str()` writes. */
  lemma IntTextRoundTrip(i: int)
    ensures CleanNumber(JStr(IntToString(i))) == Some(i as real)
  {
    IntTextPlain(i);
    ParseIntText(i);
    assert IntToString(i) != "";
  }

  /** Removing every `,` and `%` ignores one more of either. */
  lemma CleanedSeparator(a: string, b: string, c: char)
    requires c == ',' || c == '%'
    ensures Cleaned(a + [c] + b) == Cleaned(a + b)
  {
    var a1, b1 := Remove(a, ','), Remove(b, ',');
    var c1 := Remove([c], ',');
    assert c1 == if c == ',' then [] else [c] by {
      assert [c][1..] == [];
    }
    assert Remove(c1, '%') == [] by {
      if c1 != [] {
        assert c1[1..] == [];
      }
    }
    calc {
      Remove(a + [c] + b, ',');
    == { RemoveAppend(a + [c], b, ','); }
      Remove(a + [c], ',') + b1;
    == { RemoveAppend(a, [c], ','); }
      a1 + c1 + b1;
    }
    calc {
      Remove(a1 + c1 + b1, '%');
    == { RemoveAppend(a1 + c1, b1, '%'); }
      Remove(a1 + c1, '%') + Remove(b1, '%');
    == { RemoveAppend(a1, c1, '%'); }
      Remove(a1, '%') + Remove(b1, '%');
    == { RemoveAppend(a1, b1, '%'); }
      Remove(a1 + b1, '%');
    }
    RemoveAppend(a, b, ',');
  }

  /** Thousands separators and percent signs anywhere in the text do not
      change the number `clean_number` reads. */
  lemma SeparatorIgnored(a: string, b: string, c: char)
    requires c == ',' || c == '%'
    ensures CleanNumber(JStr(a + [c] + b)) == CleanNumber(JStr(a + b))
  {
    CleanedSeparator(a, b, c);
    if a + b == "" {
      assert Cleaned(a + b) == "";
      assert ParseFloat("") == None;
    }
  }

  /** A value that is already a whole number of hundredths is unchanged by
      `round(x, 2)`. */
  lemma Round2Exact(n: int)
    ensures Round2(n as real / 100.0) == n as real / 100.0
  {
    assert (n as real / 100.0) * 100.0 == n as real;
  }

  /** A value exactly halfway between two hundredths goes to the even one. */
  lemma Round2Tie(n: int)
    ensures Round2((n as real + 0.5) / 100.0) == (if n % 2 == 0 then n else n + 1) as real / 100.0
  {
    var y := ((n as real + 0.5) / 100.0) * 100.0;
    assert y == n as real + 0.5;
    assert y.Floor == n;
  }

  /** `round(x, 2)` preserves order. */
  lemma Round2Monotone(x: real, y: real)
    requires x <= y
    ensures Round2(x) <= Round2(y)
  {
    var f, g := (x * 100.0).Floor, (y * 100.0).Floor;
    assert f <= g;
  }
}
