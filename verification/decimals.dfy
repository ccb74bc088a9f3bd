/**
 * Finite JavaScript numbers as exact decimals, with the two conversions the
 * source relies on implicitly: number-to-string (template interpolation and
 * `join`) and the decimal-literal part of string-to-number (`Number(s)`).
 * IEEE-754 rounding is not modelled: a number is `mantissa / 10^scale`.
 */
module Decimals {
  import opened Options

  function Pow10(n: nat): (r: nat)
    ensures r >= 1
  {
    if n == 0 then 1 else 10 * Pow10(n - 1)
  }

  /** The finite number `mantissa / 10^scale`. */
  datatype Decimal = Decimal(mantissa: int, scale: nat)

  /** The number is zero (JavaScript does not tell `0` from `-0` in any check here). */
  predicate IsZero(d: Decimal)
  {
    d.mantissa == 0
  }

  /** The number is strictly below one: `Number(x) < 1`. */
  predicate LessThanOne(d: Decimal)
  {
    d.mantissa < Pow10(d.scale)
  }

  /** The written form has no trailing fractional zero. */
  predicate IsNormal(d: Decimal)
  {
    d.scale > 0 ==> d.mantissa % 10 != 0
  }

  /** The same number with trailing fractional zeros removed. */
  function Normalize(d: Decimal): (r: Decimal)
    ensures IsNormal(r)
    ensures r.scale <= d.scale
    ensures d.mantissa == r.mantissa * Pow10(d.scale - r.scale)
    decreases d.scale
  {
    if d.scale > 0 && d.mantissa % 10 == 0 then
      var r := Normalize(Decimal(d.mantissa / 10, d.scale - 1));
      assert d.mantissa / 10 == r.mantissa * Pow10(d.scale - 1 - r.scale);
      assert Pow10(d.scale - r.scale) == 10 * Pow10(d.scale - 1 - r.scale);
      r
    else d
  }

  // ---- digit strings ----

  predicate IsDigit(c: char)
  {
    '0' <= c <= '9'
  }

  predicate AllDigits(s: string)
  {
    forall i :: 0 <= i < |s| ==> IsDigit(s[i])
  }

  function DigitChar(k: nat): (c: char)
    requires k < 10
    ensures IsDigit(c)
  {
    ('0' as int + k) as char
  }

  /** The value of a string of decimal digits, most significant first. */
  function DigitsValue(s: string): nat
    requires AllDigits(s)
  {
    if |s| == 0 then 0
    else 10 * DigitsValue(s[..|s| - 1]) + (s[|s| - 1] as int - '0' as int)
  }

  /** The shortest decimal digits of `n`. */
  function NatToDigits(n: nat): (r: string)
    ensures |r| > 0 && AllDigits(r)
  {
    if n < 10 then [DigitChar(n)] else NatToDigits(n / 10) + [DigitChar(n % 10)]
  }

  /** Exactly `w` decimal digits of `k`, with leading zeros. */
  function PadDigits(k: nat, w: nat): (r: string)
    requires k < Pow10(w)
    ensures |r| == w && AllDigits(r)
  {
    if w == 0 then "" else PadDigits(k / 10, w - 1) + [DigitChar(k % 10)]
  }

  lemma {:induction false} NatToDigitsValue(n: nat)
    ensures DigitsValue(NatToDigits(n)) == n
  {
    var s := NatToDigits(n);
    if n >= 10 {
      NatToDigitsValue(n / 10);
      assert s[..|s| - 1] == NatToDigits(n / 10);
    }
  }

  lemma {:induction false} PadDigitsValue(k: nat, w: nat)
    requires k < Pow10(w)
    ensures DigitsValue(PadDigits(k, w)) == k
  {
    if w > 0 {
      var s := PadDigits(k, w);
      PadDigitsValue(k / 10, w - 1);
      assert s[..|s| - 1] == PadDigits(k / 10, w - 1);
    }
  }

  lemma {:induction false} DigitsValueConcat(a: string, b: string)
    requires AllDigits(a) && AllDigits(b)
    ensures AllDigits(a + b)
    ensures DigitsValue(a + b) == DigitsValue(a) * Pow10(|b|) + DigitsValue(b)
  {
    if |b| > 0 {
      var ab := a + b;
      var init := b[..|b| - 1];
      var last := b[|b| - 1] as int - '0' as int;
      assert ab[..|ab| - 1] == a + init;
      DigitsValueConcat(a, init);
      var x, p := DigitsValue(a), Pow10(|init|);
      calc {
        DigitsValue(ab);
        10 * DigitsValue(a + init) + last;
        10 * (x * p + DigitsValue(init)) + last;
        { MulCommute10(x, p); }
        x * (10 * p) + (10 * DigitsValue(init) + last);
      }
    } else {
      assert a + b == a;
    }
  }

  lemma MulCommute10(x: int, p: int)
    ensures 10 * (x * p) == x * (10 * p)
  {
  }

  // ---- number to string ----

  /** `m / 10^k`, dividing by ten `k` times. */
  function Shift(m: nat, k: nat): nat
  {
    if k == 0 then m else Shift(m / 10, k - 1)
  }

  /** `m % 10^k`: the last `k` decimal digits of `m`. */
  function Low(m: nat, k: nat): (r: nat)
    ensures r < Pow10(k)
  {
    if k == 0 then 0 else 10 * Low(m / 10, k - 1) + m % 10
  }

  /** Splitting off the last `k` digits loses nothing. */
  lemma {:induction false} ShiftLow(m: nat, k: nat)
    ensures m == Shift(m, k) * Pow10(k) + Low(m, k)
  {
    if k > 0 {
      ShiftLow(m / 10, k - 1);
      MulCommute10(Shift(m, k), Pow10(k - 1));
    }
  }

  /** The digits of `m / 10^scale` without sign: integer part, then `.` and the fraction if `scale > 0`. */
  function PrintUnsigned(m: nat, scale: nat): string
  {
    NatToDigits(Shift(m, scale)) + (if scale == 0 then "" else "." + PadDigits(Low(m, scale), scale))
  }

  /**
   * `String(x)` for a finite number: an optional `-`, the integer digits, and
   * the fractional digits after a `.` when there are any, with no trailing zero.
   */
  function Print(d: Decimal): string
  {
    PrintSigned(Normalize(d))
  }

  /** The sign of `n`, then the digits of its magnitude. */
  function PrintSigned(n: Decimal): string
  {
    if n.mantissa < 0 then "-" + PrintUnsigned(Magnitude(n), n.scale)
    else PrintUnsigned(Magnitude(n), n.scale)
  }

  /** The absolute value of the mantissa. */
  function Magnitude(n: Decimal): nat
  {
    if n.mantissa < 0 then -n.mantissa else n.mantissa
  }

  // ---- string to number ----

  /** The position of the first `c` in `s`, or `|s|` when there is none. */
  function IndexOf(s: string, c: char): (i: nat)
    ensures i <= |s|
    ensures i < |s| ==> s[i] == c
    ensures forall j :: 0 <= j < i ==> s[j] != c
  {
    if |s| == 0 then 0 else if s[0] == c then 0 else 1 + IndexOf(s[1..], c)
  }

  /** An unsigned decimal literal: `digits`, `digits.`, `digits.digits` or `.digits`. */
  function ParseUnsigned(b: string): Option<Decimal>
  {
    var i := IndexOf(b, '.');
    var ip := b[..i];
    var fp := if i < |b| then b[i + 1..] else "";
    if AllDigits(ip) && AllDigits(fp) && |ip| + |fp| > 0 then
      DigitsValueConcat(ip, fp);
      Some(Decimal(DigitsValue(ip + fp), |fp|))
    else None
  }

  /** A decimal literal with an optional `+` or `-` sign. */
  function ParseLiteral(t: string): Option<Decimal>
  {
    if |t| > 0 && (t[0] == '+' || t[0] == '-') then
      match ParseUnsigned(t[1..])
      case None => None
      case Some(d) => Some(if t[0] == '-' then Decimal(-d.mantissa, d.scale) else d)
    else ParseUnsigned(t)
  }

  lemma {:induction false} IndexOfAfter(a: string, b: string, c: char)
    requires forall j :: 0 <= j < |a| ==> a[j] != c
    requires |b| > 0 && b[0] == c
    ensures IndexOf(a + b, c) == |a|
  {
    if |a| > 0 {
      assert (a + b)[1..] == a[1..] + b;
      IndexOfAfter(a[1..], b, c);
    } else {
      assert a + b == b;
    }
  }

  /** A literal made of integer digits, a point and fraction digits reads as their combined digits. */
  lemma ParseUnsignedSplit(ip: string, fp: string)
    requires AllDigits(ip) && AllDigits(fp) && |ip| > 0
    ensures AllDigits(ip + fp)
    ensures ParseUnsigned(ip + "." + fp) == Some(Decimal(DigitsValue(ip + fp), |fp|))
  {
    var body := ip + "." + fp;
    IndexOfAfter(ip, "." + fp, '.');
    assert ip + ("." + fp) == body;
    assert body[..|ip|] == ip;
    assert body[|ip| + 1..] == fp;
    DigitsValueConcat(ip, fp);
  }

  /** A literal of digits only reads as their value. */
  lemma ParseUnsignedDigits(ip: string)
    requires AllDigits(ip) && |ip| > 0
    ensures ParseUnsigned(ip) == Some(Decimal(DigitsValue(ip), 0))
  {
    assert IndexOf(ip, '.') == |ip|;
    assert ip[..|ip|] == ip;
    assert ip + "" == ip;
  }

  lemma PrintUnsignedParse(m: nat, scale: nat)
    ensures ParseUnsigned(PrintUnsigned(m, scale)) == Some(Decimal(m, scale))
  {
    if scale == 0 {
      var ip := NatToDigits(m);
      NatToDigitsValue(m);
      assert PrintUnsigned(m, scale) == ip;
      ParseUnsignedDigits(ip);
    } else {
      PrintFractionParse(m, scale);
    }
  }

  lemma PrintFractionParse(m: nat, scale: nat)
    requires scale > 0
    ensures ParseUnsigned(PrintUnsigned(m, scale)) == Some(Decimal(m, scale))
  {
    var q, r := Shift(m, scale), Low(m, scale);
    var ip, fp := NatToDigits(q), PadDigits(r, scale);
    assert PrintUnsigned(m, scale) == ip + "." + fp;
    ParseUnsignedSplit(ip, fp);
    assert DigitsValue(ip + fp) == m by {
      ShiftLow(m, scale);
      NatToDigitsValue(q);
      PadDigitsValue(r, scale);
      DigitsValueConcat(ip, fp);
    }
  }

  /** Reading back a printed number gives the same number, in normal form. */
  lemma PrintParse(d: Decimal)
    ensures ParseLiteral(Print(d)) == Some(Normalize(d))
  {
    PrintSignedParse(Normalize(d));
  }

  lemma PrintSignedParse(n: Decimal)
    ensures ParseLiteral(PrintSigned(n)) == Some(n)
  {
    var m := Magnitude(n);
    PrintUnsignedParse(m, n.scale);
    if n.mantissa < 0 {
      ParseNegated(PrintUnsigned(m, n.scale), Decimal(m, n.scale));
    } else {
      ParseUnsignedAlone(m, n.scale);
    }
  }

  /** A `-` in front of an unsigned literal negates its value. */
  lemma ParseNegated(u: string, d: Decimal)
    requires ParseUnsigned(u) == Some(d)
    ensures ParseLiteral("-" + u) == Some(Decimal(-d.mantissa, d.scale))
  {
    assert ("-" + u)[1..] == u;
  }

  /** Printed digits start with a digit, so they are read without a sign. */
  lemma ParseUnsignedAlone(m: nat, scale: nat)
    ensures ParseLiteral(PrintUnsigned(m, scale)) == ParseUnsigned(PrintUnsigned(m, scale))
  {
    var ip := NatToDigits(Shift(m, scale));
    assert PrintUnsigned(m, scale)[0] == ip[0];
  }
}
