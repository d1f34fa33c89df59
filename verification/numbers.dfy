/**
 * Numbers written as text, and the conversions the program applies to them:
 * Python's `float(text)`, `int(text)`, `int(x)` on a float (truncation toward zero)
 * and `round(x, 2)`, all over exact reals.
 */
module Numbers {
  import opened Wrappers
  import opened Strings

  predicate AllDigits(s: string) {
    forall i :: 0 <= i < |s| ==> IsDigit(s[i])
  }

  function DigitValue(c: char): (d: nat)
    requires IsDigit(c)
    ensures d < 10
  {
    c as int - '0' as int
  }

  /** The value of a string of decimal digits (0 for the empty string). */
  function DigitsValue(s: string): nat
    requires AllDigits(s)
  {
    if s == [] then 0 else DigitsValue(s[..|s| - 1]) * 10 + DigitValue(s[|s| - 1])
  }

  function Pow10(k: nat): (p: nat)
    ensures p >= 1
  {
    if k == 0 then 1 else 10 * Pow10(k - 1)
  }

  /** The decimal digits of `n`, most significant first, without leading zeros. */
  function NatToDigits(n: nat): (s: string)
    ensures s != [] && AllDigits(s)
  {
    var last := ['0' + (n % 10) as char];
    if n < 10 then last else NatToDigits(n / 10) + last
  }

  /** Round trip: the digits of `n` read back as `n`. */
  lemma {:induction false} DigitsOfNat(n: nat)
    ensures DigitsValue(NatToDigits(n)) == n
  {
    var s := NatToDigits(n);
    if n >= 10 {
      DigitsOfNat(n / 10);
      assert s[..|s| - 1] == NatToDigits(n / 10);
    }
  }

  /** Appending digits multiplies by a power of ten and adds their value. */
  lemma {:induction false} DigitsValueAppend(a: string, b: string)
    requires AllDigits(a) && AllDigits(b)
    ensures AllDigits(a + b)
    ensures DigitsValue(a + b) == DigitsValue(a) * Pow10(|b|) + DigitsValue(b)
    decreases |b|
  {
    if b == [] {
      assert a + b == a;
    } else {
      var c, b' := a + b, b[..|b| - 1];
      assert c[..|c| - 1] == a + b';
      assert c[|c| - 1] == b[|b| - 1];
      DigitsValueAppend(a, b');
      ShiftDigit(DigitsValue(a), Pow10(|b'|), DigitsValue(b'), DigitValue(b[|b| - 1]));
    }
  }

  /** One more digit after `x` shifted by `p` and followed by `y`. */
  lemma ShiftDigit(x: int, p: int, y: int, d: int)
    ensures (x * p + y) * 10 + d == x * (10 * p) + (y * 10 + d)
  {
  }

  /** An unsigned decimal literal: `digits`, `digits.`, `.digits` or `digits.digits`. */
  function ParseUnsigned(s: string): Option<real> {
    match Find(s, '.')
    case None =>
      if s != [] && AllDigits(s) then Some(DigitsValue(s) as real) else None
    case Some(k) =>
      var whole, frac := s[..k], s[k + 1..];
      if AllDigits(whole) && AllDigits(frac) && (whole != [] || frac != []) then
        Some(DigitsValue(whole) as real + DigitsValue(frac) as real / Pow10(|frac|) as real)
      else None
  }

  /**
   * Python's `float(text)` for an optionally signed decimal literal with surrounding
   * whitespace; `None` stands for the ValueError it raises on anything else.
   */
  function ParseFloat(text: string): (r: Option<real>)
    ensures r.Some? ==> Strip(text) != []
  {
    var s := Strip(text);
    if s != [] && (s[0] == '-' || s[0] == '+') then
      match ParseUnsigned(s[1..])
      case None => None
      case Some(x) => Some(if s[0] == '-' then -x else x)
    else ParseUnsigned(s)
  }

  /** Python's `int(text)` for an optionally signed run of digits with surrounding whitespace. */
  function ParseInt(text: string): (r: Option<int>)
    ensures r.Some? ==> Strip(text) != []
  {
    var s := Strip(text);
    if s != [] && (s[0] == '-' || s[0] == '+') then
      if |s| > 1 && AllDigits(s[1..]) then
        var v: int := DigitsValue(s[1..]);
        Some(if s[0] == '-' then -v else v)
      else None
    else if s != [] && AllDigits(s) then Some(DigitsValue(s))
    else None
  }

  /** Every text `int` accepts, `float` accepts too, with the same value. */
  lemma IntIsFloat(text: string)
    ensures ParseInt(text).Some? ==> ParseFloat(text) == Some(ParseInt(text).value as real)
  {
    var s := Strip(text);
    if ParseInt(text).Some? {
      var u := if s[0] == '-' || s[0] == '+' then s[1..] else s;
      assert u != [] && AllDigits(u);
      assert forall i :: 0 <= i < |u| ==> u[i] != '.';
      assert Find(u, '.') == None;
    }
  }

  /** A sign before an unsigned literal negates it (`-`) or keeps it (`+`). */
  lemma SignedParse(sign: char, s: string)
    requires sign == '-' || sign == '+'
    requires s != [] && !IsSpace(s[|s| - 1]) && ParseUnsigned(s).Some?
    ensures ParseFloat([sign] + s) ==
      Some(if sign == '-' then -ParseUnsigned(s).value else ParseUnsigned(s).value)
  {
    SignedStrip(sign, s);
  }

  /** `int` accepts a run of digits, with its value. */
  lemma ParseIntDigits(s: string)
    requires s != [] && AllDigits(s)
    ensures ParseInt(s) == Some(DigitsValue(s))
  {
    assert IsDigit(s[0]) && IsDigit(s[|s| - 1]);
    StripPlain(s);
  }

  /** `int` accepts a signed run of digits, negated after a `-`. */
  lemma ParseIntSigned(sign: char, s: string)
    requires sign == '-' || sign == '+'
    requires s != [] && AllDigits(s)
    ensures ParseInt([sign] + s) == Some(if sign == '-' then -(DigitsValue(s) as int) else DigitsValue(s))
  {
    assert IsDigit(s[|s| - 1]);
    SignedStrip(sign, s);
  }

  /** A sign followed by text that does not end in whitespace is its own strip. */
  lemma SignedStrip(sign: char, s: string)
    requires sign == '-' || sign == '+'
    requires s != [] && !IsSpace(s[|s| - 1])
    ensures var t := [sign] + s; t[0] == sign && t[1..] == s && TrimStart(t) == t && Strip(t) == t
  {
    var t := [sign] + s;
    assert t[|t| - 1] == s[|s| - 1];
    StripPlain(t);
    assert t[1..] == s;
  }

  /** A literal with two points, such as `1.2.3`, is rejected. */
  lemma TwoPointsRejected(whole: string, mid: string, tail: string)
    requires AllDigits(whole) && AllDigits(mid) && AllDigits(tail)
    ensures ParseFloat(whole + "." + mid + "." + tail) == None
  {
    var rest := mid + "." + tail;
    var t := whole + "." + rest;
    assert whole + "." + mid + "." + tail == t;
    PointFound(whole, rest);
    assert rest[|mid|] == '.';
    assert ParseUnsigned(t) == None;
    assert !IsSpace(t[0]) && t[0] != '-' && t[0] != '+' by {
      if whole != [] {
        assert t[0] == whole[0] && IsDigit(whole[0]);
      }
    }
    assert !IsSpace(t[|t| - 1]) by {
      if tail != [] {
        assert t[|t| - 1] == tail[|tail| - 1] && IsDigit(tail[|tail| - 1]);
      }
    }
    ParseFloatUnsigned(t);
  }

  /** The first point of `whole + "." + rest`, for digits `whole`, follows `whole`. */
  lemma PointFound(whole: string, rest: string)
    requires AllDigits(whole)
    ensures var t := whole + "." + rest; Find(t, '.') == Some(|whole|) && t[|whole| + 1..] == rest
  {
    var t := whole + "." + rest;
    var k := |whole|;
    assert t[..k] == whole && t[k] == '.';
    assert '.' !in t[..k] by {
      assert forall i :: 0 <= i < k ==> IsDigit(t[..k][i]);
    }
    FindAt(t, '.', k);
  }

  /** A digit string is a float literal with the value of its digits. */
  lemma DigitsParse(s: string)
    requires s != [] && AllDigits(s)
    ensures ParseFloat(s) == Some(DigitsValue(s) as real)
  {
    assert IsDigit(s[0]) && IsDigit(s[|s| - 1]);
    ParseFloatUnsigned(s);
    assert forall i :: 0 <= i < |s| ==> s[i] != '.';
    assert Find(s, '.') == None;
  }

  /** Text with no sign and no surrounding whitespace is read as an unsigned literal. */
  lemma ParseFloatUnsigned(s: string)
    requires s != [] && !IsSpace(s[0]) && !IsSpace(s[|s| - 1]) && s[0] != '-' && s[0] != '+'
    ensures ParseFloat(s) == ParseUnsigned(s)
  {
    StripPlain(s);
  }

  /** `digits.digits` reads as the whole part plus the fraction. */
  lemma DecimalParse(s: string, whole: string, tail: string)
    requires s == whole + "." + tail && whole != [] && AllDigits(whole) && AllDigits(tail)
    ensures ParseFloat(s) ==
      Some(DigitsValue(whole) as real + DigitsValue(tail) as real / Pow10(|tail|) as real)
  {
    var k := |whole|;
    assert s[..k] == whole && s[k] == '.' && s[k + 1..] == tail;
    assert !IsSpace(s[|s| - 1]) by {
      if tail != [] {
        assert s[|s| - 1] == tail[|tail| - 1];
      }
    }
    PointParse(s, k, whole, tail);
  }

  /** A literal whose only point is at `k`, with digits on both sides. */
  lemma PointParse(s: string, k: nat, whole: string, tail: string)
    requires 0 < k < |s| && s[k] == '.' && whole == s[..k] && tail == s[k + 1..]
    requires AllDigits(whole) && AllDigits(tail) && !IsSpace(s[|s| - 1])
    ensures ParseFloat(s) ==
      Some(DigitsValue(whole) as real + DigitsValue(tail) as real / Pow10(|tail|) as real)
  {
    assert '.' !in s[..k] by {
      assert forall i :: 0 <= i < k ==> IsDigit(s[..k][i]);
    }
    assert Find(s, '.') == Some(k);
    ParseUnsignedAt(s, k, whole, tail);
    assert IsDigit(s[..k][0]);
    ParseFloatUnsigned(s);
  }

  /** A literal with its point at `k` reads as the digits before it plus the fraction after. */
  lemma ParseUnsignedAt(s: string, k: nat, whole: string, tail: string)
    requires Find(s, '.') == Some(k) && k > 0 && whole == s[..k] && tail == s[k + 1..]
    requires AllDigits(whole) && AllDigits(tail)
    ensures ParseUnsigned(s) ==
      Some(DigitsValue(whole) as real + DigitsValue(tail) as real / Pow10(|tail|) as real)
  {
    assert whole != [];
  }

  /** Python's `int(x)` for a float: truncation toward zero. */
  function Truncate(x: real): (n: int)
    ensures x >= 0.0 ==> 0.0 <= n as real <= x < n as real + 1.0
    ensures x < 0.0 ==> n as real - 1.0 < x <= n as real <= 0.0
  {
    if x >= 0.0 then x.Floor else -((-x).Floor)
  }

  /** The integer nearest to `y`, ties to the even one. */
  function RoundHalfEven(y: real): (n: int)
    ensures -0.5 <= n as real - y <= 0.5
  {
    var f := y.Floor;
    var d := y - f as real;
    if d < 0.5 then f
    else if d > 0.5 then f + 1
    else if f % 2 == 0 then f
    else f + 1
  }

  /** Python's `round(x, 2)` on an exact value: the nearest whole cent, ties to even cents. */
  function Round2(x: real): (r: real)
    ensures -0.005 <= r - x <= 0.005
    ensures (r * 100.0).Floor as real == r * 100.0
  {
    RoundHalfEven(x * 100.0) as real / 100.0
  }

  /** Rounding to cents never reverses the order of two amounts. */
  lemma Round2Monotone(x: real, y: real)
    requires x <= y
    ensures Round2(x) <= Round2(y)
  {
    var a, b := x * 100.0, y * 100.0;
    var fa, fb := a.Floor, b.Floor;
    assert fa <= fb;
    if fa == fb {
      assert a - fa as real <= b - fb as real;
    }
    assert RoundHalfEven(a) <= RoundHalfEven(b);
  }

  /** A string of digits is worth less than ten to the power of its length. */
  lemma {:induction false} DigitsBelowPow10(s: string)
    requires AllDigits(s)
    ensures DigitsValue(s) < Pow10(|s|)
  {
    if s != [] {
      DigitsBelowPow10(s[..|s| - 1]);
    }
  }

  /** `int(float(whole.tail))` is the whole part. */
  lemma DecimalTruncates(s: string, whole: string, tail: string)
    requires s == whole + "." + tail && whole != [] && AllDigits(whole) && AllDigits(tail)
    ensures ParseFloat(s).Some? && Truncate(ParseFloat(s).value) == DigitsValue(whole)
  {
    DecimalParse(s, whole, tail);
    DigitsBelowPow10(tail);
    FractionTruncated(DigitsValue(whole), DigitsValue(tail), Pow10(|tail|));
  }

  /** A whole number plus a proper fraction truncates to the whole number. */
  lemma FractionTruncated(w: nat, f: nat, d: nat)
    requires f < d
    ensures Truncate(w as real + f as real / d as real) == w
  {
    var x := w as real + f as real / d as real;
    assert 0.0 <= f as real / d as real < 1.0;
    var n := Truncate(x);
    assert n as real <= x < n as real + 1.0;
  }
}
