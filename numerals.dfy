/** Decimal numerals as Python's `str(int)`, `int(str)` and `int(float(str))` handle them,
    restricted to plain digit strings (see README, "Left out"). */
module Numerals {
  import opened Wrappers
  import Strings

  predicate IsDigit(c: char) { '0' <= c <= '9' }

  predicate AllDigits(s: string) { forall i :: 0 <= i < |s| ==> IsDigit(s[i]) }

  function DigitValue(c: char): (d: nat)
    requires IsDigit(c)
    ensures d < 10
  {
    c as int - '0' as int
  }

  function DigitChar(d: nat): (c: char)
    requires d < 10
    ensures IsDigit(c) && DigitValue(c) == d
  {
    ('0' as int + d) as char
  }

  /** The value of a digit string read most significant digit first. */
  function DigitsValue(s: string): nat
    requires AllDigits(s)
  {
    if |s| == 0 then 0 else DigitsValue(s[..|s| - 1]) * 10 + DigitValue(s[|s| - 1])
  }

  function Pow10(k: nat): (p: nat)
    ensures p >= 1
  {
    if k == 0 then 1 else 10 * Pow10(k - 1)
  }

  /** `int(s)` for a string of digits; `None` where Python would raise `ValueError`. */
  function ParseNat(s: string): Option<nat>
  {
    if |s| > 0 && AllDigits(s) then Some(DigitsValue(s)) else None
  }

  /** `str(n)`: no leading zero, no sign, so no '.', '/' or ',' either. */
  function NatToString(n: nat): (s: string)
    ensures |s| > 0 && AllDigits(s)
    ensures DigitsValue(s) == n
    ensures |s| > 1 ==> s[0] != '0'
    decreases n
  {
    if n < 10 then [DigitChar(n)]
    else
      var s := NatToString(n / 10) + [DigitChar(n % 10)];
      assert s[..|s| - 1] == NatToString(n / 10);
      s
  }

  lemma ParseNatRoundTrip(n: nat)
    ensures ParseNat(NatToString(n)) == Some(n)
  {
  }

  /** `int(s)` with an optional sign. */
  function ParseInt(s: string): Option<int>
  {
    if |s| > 0 && (s[0] == '-' || s[0] == '+') then
      match ParseNat(s[1..])
      case None => None
      case Some(n) => Some(if s[0] == '-' then -(n as int) else n as int)
    else
      match ParseNat(s)
      case None => None
      case Some(n) => Some(n)
  }

  /** `str(x)`. */
  function IntToString(x: int): (s: string)
    ensures |s| > 0
    ensures forall i :: 0 <= i < |s| ==> IsDigit(s[i]) || (i == 0 && s[i] == '-')
  {
    if x < 0 then "-" + NatToString(-x) else NatToString(x)
  }

  lemma ParseIntRoundTrip(x: int)
    ensures ParseInt(IntToString(x)) == Some(x)
  {
    var s := IntToString(x);
    if x < 0 {
      assert s[1..] == NatToString(-x);
    } else {
      assert s[0] != '-' && s[0] != '+' by { assert IsDigit(s[0]); }
    }
  }

  /** The first `k` digits of a fractional part, padded with zeros, as an integer:
      the fraction's value times 10^k, truncated. */
  function FracScaled(f: string, k: nat): (v: nat)
    requires AllDigits(f)
    ensures v < Pow10(k)
  {
    if k == 0 then 0
    else if |f| == 0 then 0
    else
      var d, p, rest := DigitValue(f[0]), Pow10(k - 1), FracScaled(f[1..], k - 1);
      assert d * p <= 9 * p by { MulBound(d, 9, p); }
      d * p + rest
  }

  lemma MulBound(a: nat, b: nat, p: nat)
    requires a <= b
    ensures a * p <= b * p
  {
  }

  /** The value of the decimal `w.f` times 10^k, truncated. */
  function Scaled(w: string, f: string, k: nat): int
    requires AllDigits(w) && AllDigits(f)
  {
    DigitsValue(w) * Pow10(k) + FracScaled(f, k)
  }

  /** `int(float(s) * 10**k)` for a decimal `[+-]digits[.digits]`: the value times
      10^k, truncated toward zero. `None` where the string is no such decimal. */
  function ParseDecimalTrunc(s: string, k: nat): Option<int>
  {
    var signed := |s| > 0 && (s[0] == '-' || s[0] == '+');
    var body := if signed then s[1..] else s;
    var pieces := Strings.Split(body, '.');
    if |pieces| > 2 then None
    else
      var whole := pieces[0];
      var frac := if |pieces| == 2 then pieces[1] else "";
      if |whole| > 0 && AllDigits(whole) && AllDigits(frac) then
        var magnitude := Scaled(whole, frac, k);
        Some(if |s| > 0 && s[0] == '-' then -magnitude else magnitude)
      else None
  }

  /** What `str(x)` writes, `int(float(...))` reads back. */
  lemma DecimalTruncRoundTrip(x: int)
    ensures ParseDecimalTrunc(IntToString(x), 0) == Some(x)
  {
    var s := IntToString(x);
    var n: nat := if x < 0 then -x else x;
    var digits := NatToString(n);
    if x < 0 {
      assert s[1..] == digits;
    } else {
      assert s[0] != '-' && s[0] != '+' by { assert IsDigit(s[0]); }
    }
    assert '.' !in digits by {
      forall i | 0 <= i < |digits| ensures digits[i] != '.' { assert IsDigit(digits[i]); }
    }
    Strings.SplitWithoutSep(digits, '.');
  }

  /** Any decimal `[-]w.f`: its whole part scaled by 10^k plus the first k digits of its
      fraction, negated under a minus sign, so the reading truncates toward zero. */
  lemma DecimalTruncFraction(minus: bool, w: string, f: string, k: nat)
    requires |w| > 0 && AllDigits(w) && AllDigits(f)
    ensures var s := (if minus then "-" else "") + w + "." + f;
            var magnitude := Scaled(w, f, k);
            ParseDecimalTrunc(s, k) == Some(if minus then -magnitude else magnitude)
  {
    if minus {
      DecimalTruncMinus(w, f, k);
    } else {
      DecimalTruncUnsigned(w, f, k);
      assert "" + w + "." + f == w + "." + f;
    }
  }

  lemma DecimalTruncUnsigned(w: string, f: string, k: nat)
    requires |w| > 0 && AllDigits(w) && AllDigits(f)
    ensures ParseDecimalTrunc(w + "." + f, k) == Some(Scaled(w, f, k))
  {
    var s := w + "." + f;
    SplitDecimal(w, f);
    var pieces := Strings.Split(s, '.');
    assert pieces[0] == w && pieces[1] == f && |pieces| == 2;
    assert IsDigit(s[0]);
    assert s[0] != '-' && s[0] != '+';
  }

  lemma DecimalTruncMinus(w: string, f: string, k: nat)
    requires |w| > 0 && AllDigits(w) && AllDigits(f)
    ensures ParseDecimalTrunc("-" + w + "." + f, k) == Some(-Scaled(w, f, k))
  {
    var body := w + "." + f;
    var s := "-" + w + "." + f;
    SplitDecimal(w, f);
    var pieces := Strings.Split(body, '.');
    assert pieces[0] == w && pieces[1] == f && |pieces| == 2;
    assert s[0] == '-' && s[1..] == body;
  }

  /** The dot of a decimal separates its whole part from its fraction. */
  lemma SplitDecimal(w: string, f: string)
    requires AllDigits(w) && AllDigits(f)
    ensures Strings.Split(w + "." + f, '.') == [w, f]
  {
    assert '.' !in w by {
      forall i | 0 <= i < |w| ensures w[i] != '.' { assert IsDigit(w[i]); }
    }
    assert '.' !in f by {
      forall i | 0 <= i < |f| ensures f[i] != '.' { assert IsDigit(f[i]); }
    }
    Strings.SplitWithoutSep(f, '.');
    Strings.SplitAtFirst(w, '.', f);
    assert w + "." + f == w + ['.'] + f;
  }

  /** A decimal with a fraction reads as its whole part scaled plus the truncated fraction;
      e.g. "0.75" at two places is 75 and "-4.7" at none is -4. */
  lemma DecimalTruncExamples()
    ensures ParseDecimalTrunc("0.75", 2) == Some(75)
    ensures ParseDecimalTrunc("-4.7", 0) == Some(-4)
    ensures ParseDecimalTrunc("1.2.3", 0) == None
  {
    DecimalTruncScaled("0.75");
    DecimalTruncNegative("-4.7");
    DecimalTruncTwoDots("1.2.3");
  }

  lemma DecimalTruncScaled(s: string)
    requires s == "0.75"
    ensures ParseDecimalTrunc(s, 2) == Some(75)
  {
    SplitAt("0", "75");
    assert s == "0" + "." + "75";
    assert FracScaled("75", 2) == 75 by {
      assert "75"[1..] == "5" && "5"[1..] == "";
    }
  }

  lemma DecimalTruncNegative(s: string)
    requires s == "-4.7"
    ensures ParseDecimalTrunc(s, 0) == Some(-4)
  {
    assert s[1..] == "4" + "." + "7";
    SplitAt("4", "7");
  }

  lemma DecimalTruncTwoDots(s: string)
    requires s == "1.2.3"
    ensures ParseDecimalTrunc(s, 0) == None
  {
    Strings.SplitWithoutSep("1", '.');
    SplitAt("2", "3");
    Strings.SplitAtFirst("1", '.', "2.3");
    assert s == "1" + ['.'] + "2.3";
  }

  /** Splitting a one-character whole part, a dot and a dot-free rest. */
  lemma SplitAt(w: string, f: string)
    requires |w| == 1 && w[0] != '.' && '.' !in f
    ensures Strings.Split(w + "." + f, '.') == [w, f]
  {
    var s := w + "." + f;
    var dotted := "." + f;
    assert s[1..] == dotted;
    assert dotted[1..] == f;
    Strings.SplitWithoutSep(f, '.');
    assert Strings.Split(dotted, '.') == [""] + [f];
    assert [s[0]] + "" == w;
  }
}
