/**
 * Numbers as the scripts see them, exactly: an integer, or a decimal
 * `mant / 10^exp`. Text is read with the grammar of Python's `int()` and
 * `float()` restricted to an optional sign and decimal digits with at most
 * one point (no exponent, `inf`, `nan` or `_`), and written the way
 * Python's `str()` writes an `int` or a `float` in positional notation.
 */
module Numbers {
  import opened Wrappers

  function Pow10(n: nat): (r: nat)
    ensures r >= 1
  {
    if n == 0 then 1 else 10 * Pow10(n - 1)
  }

  predicate IsDigit(c: char) {
    '0' <= c <= '9'
  }

  predicate AllDigits(s: string) {
    forall i :: 0 <= i < |s| ==> IsDigit(s[i])
  }

  function DigitValue(c: char): (d: nat)
    requires IsDigit(c)
    ensures d < 10
  {
    c as int - '0' as int
  }

  function DigitChar(d: nat): (c: char)
    requires d < 10
    ensures IsDigit(c) && DigitValue(c) == d
  {
    ('0' as int + d) as char
  }

  /** The value of a string of decimal digits, most significant first. */
  function DigitsValue(s: string): (v: nat)
    requires AllDigits(s)
    ensures v < Pow10(|s|)
  {
    if s == [] then 0 else DigitsValue(s[..|s| - 1]) * 10 + DigitValue(s[|s| - 1])
  }

  /** Two runs of digits one after the other are a run of digits. */
  lemma {:induction false} AllDigitsAppend(a: string, b: string)
    requires AllDigits(a) && AllDigits(b)
    ensures AllDigits(a + b)
  {
    forall i | 0 <= i < |a + b| ensures IsDigit((a + b)[i]) {
      if i < |a| { assert (a + b)[i] == a[i]; } else { assert (a + b)[i] == b[i - |a|]; }
    }
  }

  /** Reading two runs of digits one after the other: the first is shifted left by the length of the second. */
  lemma {:induction false} DigitsValueAppend(a: string, b: string)
    requires AllDigits(a) && AllDigits(b)
    ensures AllDigits(a + b)
    ensures DigitsValue(a + b) == DigitsValue(a) * Pow10(|b|) + DigitsValue(b)
    decreases |b|
  {
    AllDigitsAppend(a, b);
    if b == [] {
      assert a + b == a;
    } else {
      var b' := b[..|b| - 1];
      var last := b[|b| - 1];
      assert (a + b)[..|a + b| - 1] == a + b';
      assert (a + b)[|a + b| - 1] == last;
      DigitsValueAppend(a, b');
      ShiftStep(DigitsValue(a), Pow10(|b'|), DigitsValue(b'), DigitValue(last),
                DigitsValue(a + b'), DigitsValue(a + b), Pow10(|b|), DigitsValue(b));
    }
  }

  lemma {:induction false} ShiftStep(x: int, p: int, y: int, d: int, ab': int, ab: int, pb: int, vb: int)
    requires ab' == x * p + y && ab == ab' * 10 + d && pb == 10 * p && vb == y * 10 + d
    ensures ab == x * pb + vb
  {
    MulShift(x, p, y, d);
  }

  lemma {:induction false} MulShift(x: int, p: int, y: int, d: int)
    ensures (x * p + y) * 10 + d == x * (p * 10) + (y * 10 + d)
  {
  }

  /** `k` zero digits. */
  function Zeros(k: nat): (z: string)
    ensures |z| == k && AllDigits(z) && DigitsValue(z) == 0
  {
    if k == 0 then [] else
      var z := Zeros(k - 1) + "0";
      assert z[..|z| - 1] == Zeros(k - 1);
      z
  }

  /** `str(n)` for `n >= 0`: the shortest decimal digits of `n`. */
  function NatText(n: nat): (s: string)
    ensures |s| >= 1 && AllDigits(s)
    ensures |s| > 1 ==> s[0] != '0'
    decreases n
  {
    if n < 10 then [DigitChar(n)] else NatText(n / 10) + [DigitChar(n % 10)]
  }

  /** Reading the digits of `n` gives `n` back. */
  lemma {:induction false} NatTextValue(n: nat)
    ensures DigitsValue(NatText(n)) == n
    decreases n
  {
    if n >= 10 {
      NatTextValue(n / 10);
      var s := NatText(n);
      assert s[..|s| - 1] == NatText(n / 10);
    }
  }

  /** A number below `10^w` needs at most `w` digits. */
  lemma {:induction false} NatTextLength(n: nat, w: nat)
    requires w >= 1 && n < Pow10(w)
    ensures |NatText(n)| <= w
    decreases w
  {
    if n >= 10 {
      NatTextLength(n / 10, w - 1);
    }
  }

  /** `str(i)` for an `int`. */
  function IntText(i: int): (s: string)
    ensures |s| >= 1 && IsDigit(s[|s| - 1])
    ensures forall k :: 0 <= k < |s| ==> IsDigit(s[k]) || s[k] == '-'
  {
    if i < 0 then "-" + NatText(-i) else NatText(i)
  }

  /** An optional leading `+` or `-`: whether it was `-`, and the rest. */
  function SplitSign(s: string): (bool, string) {
    if |s| > 0 && (s[0] == '-' || s[0] == '+') then (s[0] == '-', s[1..]) else (false, s)
  }

  function Signed(negative: bool, v: nat): int {
    if negative then -(v as int) else v
  }

  /** Python's `int(s)` on text that has already been stripped; `None` where it raises. */
  function ParseIntLiteral(s: string): (r: Option<int>)
    ensures r.Some? ==> s != [] && s != "-"
  {
    var (negative, body) := SplitSign(s);
    if body != [] && AllDigits(body) then Some(Signed(negative, DigitsValue(body))) else None
  }

  /** `int(str(i)) == i`. */
  lemma {:induction false} IntTextRoundTrip(i: int)
    ensures ParseIntLiteral(IntText(i)) == Some(i)
  {
    if i < 0 {
      assert SplitSign(IntText(i)) == (true, NatText(-i));
      NatTextValue(-i);
    } else {
      assert SplitSign(IntText(i)) == (false, NatText(i));
      NatTextValue(i);
    }
  }

  /** The decimal `mant / 10^exp`. */
  datatype Decimal = Decimal(mant: int, exp: nat)

  /** The exact value of a decimal. */
  function Value(d: Decimal): real {
    d.mant as real / Pow10(d.exp) as real
  }

  /** A whole number with nothing after the point has its own value. */
  lemma {:induction false} WholeValue(i: int)
    ensures Value(Decimal(i, 0)) == i as real
  {
    assert Pow10(0) == 1;
  }

  /** The number of digits at the start of `s`. */
  function LeadingDigits(s: string): (k: nat)
    ensures k <= |s| && AllDigits(s[..k]) && (k < |s| ==> !IsDigit(s[k]))
  {
    if s != [] && IsDigit(s[0]) then
      var k := LeadingDigits(s[1..]) + 1;
      assert s[..k] == [s[0]] + s[1..][..k - 1];
      k
    else 0
  }

  /**
   * Python's `float(s)` on text that has already been stripped, over the
   * grammar `[+-]? (digits ('.' digits?)? | '.' digits)`; `None` where it
   * raises. The result keeps the digits written: "12.50" is 1250 / 10^2.
   */
  function ParseDecimalLiteral(s: string): (r: Option<Decimal>)
    ensures r.Some? ==> s != [] && s != "-"
  {
    var (negative, body) := SplitSign(s);
    var k := LeadingDigits(body);
    var rest := body[k..];
    if rest == [] then
      if k > 0 then Some(Decimal(Signed(negative, DigitsValue(body)), 0)) else None
    else if rest[0] != '.' || !AllDigits(rest[1..]) || (k == 0 && |rest| == 1) then None
    else
      AllDigitsAppend(body[..k], rest[1..]);
      Some(Decimal(Signed(negative, DigitsValue(body[..k] + rest[1..])), |rest| - 1))
  }

  /** Every whole-number literal is also a decimal literal, of the same value. */
  lemma {:induction false} IntLiteralIsDecimal(s: string)
    requires ParseIntLiteral(s).Some?
    ensures ParseDecimalLiteral(s) == Some(Decimal(ParseIntLiteral(s).value, 0))
  {
    var (negative, body) := SplitSign(s);
    assert body[LeadingDigits(body)..] == [];
  }

  /** `str(i)` is also a decimal literal, with nothing after the point. */
  lemma {:induction false} IntTextIsDecimal(i: int)
    ensures ParseDecimalLiteral(IntText(i)) == Some(Decimal(i, 0))
  {
    IntTextRoundTrip(i);
    IntLiteralIsDecimal(IntText(i));
  }

  /** `int(x)` of a float: the value truncated toward zero. */
  function Trunc(d: Decimal): int {
    var p := Pow10(d.exp);
    if d.mant >= 0 then d.mant / p else -((-d.mant) / p)
  }

  /** The truncation is the whole number next to the value on the side of zero. */
  lemma {:induction false} TruncBounds(d: Decimal)
    ensures d.mant >= 0 ==> Trunc(d) >= 0 && Trunc(d) * Pow10(d.exp) <= d.mant < Trunc(d) * Pow10(d.exp) + Pow10(d.exp)
    ensures d.mant < 0 ==> Trunc(d) <= 0 && -Trunc(d) * Pow10(d.exp) <= -d.mant < -Trunc(d) * Pow10(d.exp) + Pow10(d.exp)
  {
    DivBounds(Abs(d.mant), Pow10(d.exp));
  }

  /** The quotient of integer division is the largest multiple not above the dividend. */
  lemma {:induction false} DivBounds(m: nat, p: nat)
    requires p >= 1
    ensures m / p >= 0 && (m / p) * p <= m < (m / p) * p + p
  {
    assert m == (m / p) * p + m % p;
  }

  /** A whole number written with a trailing ".0" truncates to itself. */
  lemma {:induction false} TruncWhole(n: int)
    ensures Trunc(Decimal(n * 10, 1)) == n
  {
  }

  /** The decimal with the trailing zeros of its fraction removed. */
  function Normalize(d: Decimal): (n: Decimal)
    ensures n.exp <= d.exp
    ensures n.exp > 0 ==> n.mant % 10 != 0
    ensures Value(n) == Value(d)
    decreases d.exp
  {
    if d.exp > 0 && d.mant % 10 == 0 then
      var e := Decimal(d.mant / 10, d.exp - 1);
      assert Value(e) == Value(d) by {
        assert d.mant == (d.mant / 10) * 10;
        assert Pow10(d.exp) == 10 * Pow10(d.exp - 1);
        ScaleFraction(d.mant / 10, Pow10(d.exp - 1));
      }
      Normalize(e)
    else d
  }

  lemma {:induction false} ScaleFraction(m: int, p: nat)
    requires p >= 1
    ensures (m * 10) as real / (10 * p) as real == m as real / p as real
  {
  }

  /** `abs(i)`. */
  function Abs(i: int): nat {
    if i < 0 then -i else i
  }

  /** The `w` digits after the point of a fraction `r / 10^w`, with its leading zeros. */
  function FractionDigits(r: nat, w: nat): (f: string)
    requires w >= 1 && r < Pow10(w)
    ensures |f| == w && AllDigits(f) && DigitsValue(f) == r
  {
    NatTextLength(r, w);
    NatTextValue(r);
    DigitsValueAppend(Zeros(w - |NatText(r)|), NatText(r));
    Zeros(w - |NatText(r)|) + NatText(r)
  }

  /** The digits of `a / 10^e` with a point: the whole part, `.`, then exactly `e` digits. */
  function PointText(a: nat, e: nat): (s: string)
    requires e >= 1
    ensures |s| >= 3 && IsDigit(s[0]) && IsDigit(s[|s| - 1])
    ensures forall k :: 0 <= k < |s| ==> IsDigit(s[k]) || s[k] == '.'
  {
    var p := Pow10(e);
    var (q, r) := QuotRem(a, p);
    NatText(q) + "." + FractionDigits(r, e)
  }

  /** Quotient and remainder of `a / p`. */
  function QuotRem(a: nat, p: nat): (qr: (nat, nat))
    requires p >= 1
    ensures qr.1 < p && a == qr.0 * p + qr.1
  {
    DivBounds(a, p);
    (a / p, a % p)
  }

  /** In digits followed by a point, the leading digits are exactly those before the point. */
  lemma {:induction false} LeadingDigitsBeforePoint(whole: string, rest: string)
    requires AllDigits(whole) && rest != [] && rest[0] == '.'
    ensures LeadingDigits(whole + rest) == |whole|
  {
    var s := whole + rest;
    assert s[..|whole|] == whole && s[|whole|] == '.';
  }

  /** Digits, a point and digits read as the digits run together, scaled by the number after the point. */
  lemma {:induction false} PointLiteral(whole: string, frac: string)
    requires whole != [] && AllDigits(whole) && AllDigits(frac)
    ensures AllDigits(whole + frac)
    ensures ParseDecimalLiteral(whole + "." + frac) == Some(Decimal(DigitsValue(whole + frac), |frac|))
  {
    var body := whole + "." + frac;
    var w := |whole|;
    assert body == whole + ("." + frac);
    assert body[0] == whole[0];
    assert SplitSign(body) == (false, body);
    LeadingDigitsBeforePoint(whole, "." + frac);
    assert body[..w] == whole && body[w..] == "." + frac;
    assert body[w..][1..] == frac;
    AllDigitsAppend(whole, frac);
  }

  /** Reading a `PointText` gives back the same digits and the same scale. */
  lemma {:induction false} PointTextValue(a: nat, e: nat)
    requires e >= 1
    ensures ParseDecimalLiteral(PointText(a, e)) == Some(Decimal(a, e))
  {
    var (q, r) := QuotRem(a, Pow10(e));
    var whole := NatText(q);
    var frac := FractionDigits(r, e);
    assert PointText(a, e) == whole + "." + frac;
    PointLiteral(whole, frac);
    DigitsValueAppend(whole, frac);
    NatTextValue(q);
    assert DigitsValue(whole + frac) == q * Pow10(e) + r;
  }

  /** A leading `-` negates what the unsigned text reads as. */
  lemma {:induction false} SignedLiteral(negative: bool, body: string, m: nat, e: nat)
    requires body != [] && IsDigit(body[0])
    requires ParseDecimalLiteral(body) == Some(Decimal(m, e))
    ensures ParseDecimalLiteral((if negative then "-" else "") + body) == Some(Decimal(Signed(negative, m), e))
  {
    var s := (if negative then "-" else "") + body;
    assert SplitSign(body) == (false, body);
    if negative {
      assert s[1..] == body;
    } else {
      assert s == body;
    }
    assert SplitSign(s) == (negative, body);
  }

  /**
   * `str(x)` for a float in positional notation: the shortest digits of
   * the value with at least one digit after the point ("12.0", "0.05",
   * "-3.25").
   */
  function FloatText(d: Decimal): (s: string)
  {
    var n := Normalize(d);
    var sign := if n.mant < 0 then "-" else "";
    var a := Abs(n.mant);
    if n.exp == 0 then sign + NatText(a) + ".0" else sign + PointText(a, n.exp)
  }

  /** A whole number is written with a single `0` after the point. */
  lemma {:induction false} WholePointText(a: nat)
    ensures NatText(a) + ".0" == PointText(a * 10, 1)
  {
    assert QuotRem(a * 10, 10) == (a, 0);
    assert Zeros(0) == [];
    assert FractionDigits(0, 1) == "0";
  }

  /** A signed `PointText` reads back as the signed number at the same scale. */
  lemma {:induction false} SignedPointText(negative: bool, a: nat, e: nat)
    requires e >= 1
    ensures ParseDecimalLiteral((if negative then "-" else "") + PointText(a, e)) == Some(Decimal(Signed(negative, a), e))
  {
    PointTextValue(a, e);
    SignedLiteral(negative, PointText(a, e), a, e);
  }

  /** `float(str(x)) == x`: the text a float is written as reads back as the same value. */
  lemma {:induction false} FloatTextRoundTrip(d: Decimal)
    ensures ParseDecimalLiteral(FloatText(d)).Some?
    ensures Value(ParseDecimalLiteral(FloatText(d)).value) == Value(d)
  {
    var n := Normalize(d);
    if n.exp == 0 {
      WholeFloatText(n);
    } else {
      FractionFloatText(n);
    }
  }

  lemma {:induction false} WholeFloatText(n: Decimal)
    requires n.exp == 0
    ensures ParseDecimalLiteral((if n.mant < 0 then "-" else "") + NatText(Abs(n.mant)) + ".0") == Some(Decimal(n.mant * 10, 1))
    ensures Value(Decimal(n.mant * 10, 1)) == Value(n)
  {
    var negative := n.mant < 0;
    var sign := if negative then "-" else "";
    var a := Abs(n.mant);
    WholePointText(a);
    assert sign + NatText(a) + ".0" == sign + PointText(a * 10, 1);
    SignedPointText(negative, a * 10, 1);
    assert Signed(negative, a * 10) == n.mant * 10;
    ScaleFraction(n.mant, 1);
  }

  lemma {:induction false} FractionFloatText(n: Decimal)
    requires n.exp > 0
    ensures ParseDecimalLiteral((if n.mant < 0 then "-" else "") + PointText(Abs(n.mant), n.exp)) == Some(n)
  {
    SignedPointText(n.mant < 0, Abs(n.mant), n.exp);
  }

  /** The text of a float is made of digits, a sign and a point, and ends in a digit. */
  lemma {:induction false} FloatTextChars(d: Decimal)
    ensures |FloatText(d)| >= 3 && IsDigit(FloatText(d)[|FloatText(d)| - 1])
    ensures forall k :: 0 <= k < |FloatText(d)| ==> IsDigit(FloatText(d)[k]) || FloatText(d)[k] == '-' || FloatText(d)[k] == '.'
  {
  }
}
