/** The JavaScript number primitives the simulation uses, over exact reals:
    `Math.max(lo, Math.min(hi, x))`, `Math.round`, `Number.prototype.toFixed`
    (as a sign, a rounded digit count and a rendered string) and `parseFloat`. */
module JsNumber {
  import opened Wrappers
  import opened JsString

  /** `Math.max(lo, Math.min(hi, x))`. */
  function Clamp(x: real, lo: real, hi: real): (r: real)
    ensures lo <= hi ==> lo <= r <= hi
    ensures lo <= x <= hi ==> r == x
    ensures lo <= hi ==> (x <= lo ==> r == lo) && (x >= hi ==> r == hi)
  {
    Max(lo, Min(hi, x))
  }

  function Max(a: real, b: real): real { if a >= b then a else b }
  function Min(a: real, b: real): real { if a <= b then a else b }

  lemma ClampMonotone(x: real, y: real, lo: real, hi: real)
    requires x <= y
    ensures Clamp(x, lo, hi) <= Clamp(y, lo, hi)
  {
  }

  /** `Math.round(x)`: the nearest integer, halves rounded up. */
  function MathRound(x: real): (n: int)
    ensures n as real - 0.5 <= x < n as real + 0.5
  {
    (x + 0.5).Floor
  }

  lemma MathRoundMonotone(x: real, y: real)
    requires x <= y
    ensures MathRound(x) <= MathRound(y)
  {
  }

  /** `Math.round` keeps a value that lies between two integers between them. */
  lemma MathRoundWithin(x: real, lo: int, hi: int)
    requires lo as real <= x <= hi as real
    ensures lo <= MathRound(x) <= hi
  {
  }

  function Pow10(n: nat): (p: nat)
    ensures p >= 1
  {
    if n == 0 then 1 else 10 * Pow10(n - 1)
  }

  /** The result of `x.toFixed(places)`: a sign, the magnitude scaled by
      10^places as a natural number, and the number of fractional digits. */
  datatype Decimal = Decimal(negative: bool, scaled: nat, places: nat)

  /** The number a fixed-point string denotes (`-0.0` denotes zero). */
  function Value(d: Decimal): real {
    var m := d.scaled as real / Pow10(d.places) as real;
    if d.negative then -m else m
  }

  /** The natural number nearest to a non-negative `x`, the larger on a tie. */
  function RoundHalfUp(x: real): (n: nat)
    requires x >= 0.0
    ensures n as real - 0.5 <= x < n as real + 0.5
  {
    (x + 0.5).Floor
  }

  function Abs(x: real): real { if x < 0.0 then -x else x }

  /** `x.toFixed(places)` for the exact value `x`: the sign is kept apart and
      the magnitude is rounded to `places` digits, ties away from zero. */
  function ToFixed(x: real, places: nat): (d: Decimal)
    ensures d.places == places
    ensures d.negative <==> x < 0.0
  {
    Decimal(x < 0.0, RoundHalfUp(Abs(x) * Pow10(places) as real), places)
  }

  lemma MulLe(a: real, b: real, c: real)
    requires a <= b && c >= 0.0
    ensures a * c <= b * c
  {
  }

  lemma DivLe(a: real, b: real, p: real)
    requires p > 0.0 && a <= b
    ensures a / p <= b / p
  {
  }

  lemma MulDiv(a: real, p: real)
    requires p > 0.0
    ensures (a * p) / p == a
  {
  }

  lemma DivAdd(a: real, b: real, p: real)
    requires p > 0.0
    ensures (a + b) / p == a / p + b / p
  {
  }

  /** Rounding to `places` digits moves a value by at most half a unit of
      the last digit. */
  lemma {:induction false} ToFixedClose(x: real, places: nat)
    ensures x - 0.5 / Pow10(places) as real <= Value(ToFixed(x, places))
    ensures Value(ToFixed(x, places)) <= x + 0.5 / Pow10(places) as real
  {
    var p := Pow10(places) as real;
    var d := ToFixed(x, places);
    var m := Abs(x);
    var s := d.scaled as real;
    assert m * p - 0.5 <= s <= m * p + 0.5;
    DivLe(m * p - 0.5, s, p);
    DivLe(s, m * p + 0.5, p);
    DivAdd(m * p, -0.5, p);
    DivAdd(m * p, 0.5, p);
    MulDiv(m, p);
    assert m - 0.5 / p <= s / p <= m + 0.5 / p;
  }

  /** Rounding a value that lies between two non-negative integers keeps it
      between them. */
  lemma RoundHalfUpWithin(y: real, lo: nat, hi: nat)
    requires lo as real <= y <= hi as real
    ensures lo <= RoundHalfUp(y) <= hi
  {
  }

  lemma MulCast(a: nat, b: nat)
    ensures (a * b) as real == a as real * b as real
  {
  }

  /** The scaled digits of a rounded value between two non-negative integers
      lie between the scaled integers. */
  lemma {:induction false} ScaledWithin(x: real, places: nat, lo: nat, hi: nat)
    requires lo as real <= x <= hi as real
    ensures lo * Pow10(places) <= ToFixed(x, places).scaled <= hi * Pow10(places)
  {
    var p := Pow10(places);
    ScaledOfNonNegative(x, places);
    ScaledBounds(x, p, lo, hi);
    RoundHalfUpWithin(x * p as real, lo * p, hi * p);
  }

  lemma ScaledBounds(x: real, p: nat, lo: nat, hi: nat)
    requires lo as real <= x <= hi as real
    ensures (lo * p) as real <= x * p as real <= (hi * p) as real
  {
    MulLe(lo as real, x, p as real);
    MulLe(x, hi as real, p as real);
    MulCast(lo, p);
    MulCast(hi, p);
  }

  lemma ScaledOfNonNegative(x: real, places: nat)
    requires x >= 0.0
    ensures ToFixed(x, places).scaled == RoundHalfUp(x * Pow10(places) as real)
  {
    assert Abs(x) == x;
  }

  lemma DivWithin(n: real, lo: real, hi: real, p: real)
    requires p > 0.0 && lo * p <= n <= hi * p
    ensures lo <= n / p <= hi
  {
    DivLe(lo * p, n, p);
    DivLe(n, hi * p, p);
    MulDiv(lo, p);
    MulDiv(hi, p);
  }

  lemma {:induction false} ToFixedWithin(x: real, places: nat, lo: nat, hi: nat)
    requires lo as real <= x <= hi as real
    ensures lo as real <= Value(ToFixed(x, places)) <= hi as real
  {
    var p := Pow10(places);
    var d := ToFixed(x, places);
    ScaledWithin(x, places, lo, hi);
    QuotientWithin(d.scaled, p, lo, hi);
    assert Value(d) == d.scaled as real / p as real;
  }

  lemma QuotientWithin(n: nat, p: nat, lo: nat, hi: nat)
    requires p >= 1 && lo * p <= n <= hi * p
    ensures lo as real <= n as real / p as real <= hi as real
  {
    MulCast(lo, p);
    MulCast(hi, p);
    DivWithin(n as real, lo as real, hi as real, p as real);
  }

  // Digit strings

  predicate IsDigit(c: char) { '0' <= c <= '9' }

  predicate AllDigits(s: string) { forall i :: 0 <= i < |s| ==> IsDigit(s[i]) }

  function DigitChar(k: nat): (c: char)
    requires k < 10
    ensures IsDigit(c) && (c as int - '0' as int) == k
  {
    ('0' as int + k) as char
  }

  /** The decimal digits of `n`, without leading zeros (`"0"` for zero). */
  function NatDigits(n: nat): (s: string)
    ensures |s| >= 1 && AllDigits(s)
  {
    if n < 10 then [DigitChar(n)] else NatDigits(n / 10) + [DigitChar(n % 10)]
  }

  /** The natural number a digit string denotes. */
  function DigitsValue(s: string): nat
    requires AllDigits(s)
  {
    if |s| == 0 then 0
    else DigitsValue(s[..|s| - 1]) * 10 + (s[|s| - 1] as int - '0' as int)
  }

  function Zeros(k: nat): (s: string)
    ensures |s| == k && AllDigits(s)
    ensures forall i :: 0 <= i < k ==> s[i] == '0'
  {
    seq(k, i => '0')
  }

  /** The longest prefix of `s` made of digits. */
  function DigitPrefix(s: string): (p: string)
    ensures AllDigits(p) && |p| <= |s| && p == s[..|p|]
    ensures |p| == |s| || !IsDigit(s[|p|])
  {
    if |s| > 0 && IsDigit(s[0]) then [s[0]] + DigitPrefix(s[1..]) else ""
  }

  /** The digits of `n`, left-padded with zeros to at least `places + 1`. */
  function Padded(n: nat, places: nat): (s: string)
    ensures AllDigits(s) && |s| >= places + 1
  {
    var m := NatDigits(n);
    if |m| <= places then
      DigitsValueAppend(Zeros(places + 1 - |m|), m);
      Zeros(places + 1 - |m|) + m
    else m
  }

  /** `x.toFixed(places)` as JavaScript writes it: a minus sign for a
      negative `x` (so `-0.04` gives `"-0.0"`), at least one integer digit,
      and exactly `places` digits after the point. */
  function Render(d: Decimal): string {
    var padded := Padded(d.scaled, d.places);
    var k := |padded| - d.places;
    Signed(d.negative, FixedBody(padded[..k], padded[k..], d.places != 0))
  }

  function Signed(negative: bool, body: string): string {
    (if negative then "-" else "") + body
  }

  function FixedBody(whole: string, frac: string, point: bool): string {
    whole + (if point then "." + frac else "")
  }

  /** `parseFloat(s)`: skips leading white space, reads an optional sign and
      then an unsigned decimal; `None` is `NaN`. */
  function ParseFloat(s: string): Option<real> {
    var t := TrimStart(s);
    if |t| > 0 && (t[0] == '-' || t[0] == '+') then WithSign(t[0] == '-', ParseUnsigned(t[1..]))
    else ParseUnsigned(t)
  }

  function WithSign(negative: bool, r: Option<real>): Option<real> {
    match r
    case None => None
    case Some(m) => Some(if negative then -m else m)
  }

  /** The longest prefix of `u` of the form digits, or digits `.` digits, or
      `.` digits, as a number; `None` when there is no digit to read. */
  function ParseUnsigned(u: string): (r: Option<real>)
    ensures r.None? <==> DigitPrefix(u) == "" && (|u| < 2 || u[0] != '.' || !IsDigit(u[1]))
  {
    var whole := DigitPrefix(u);
    var after := u[|whole|..];
    var frac := if |after| > 0 && after[0] == '.' then DigitPrefix(after[1..]) else "";
    if whole == "" && frac == "" then None
    else Some(DigitsValue(whole) as real + DigitsValue(frac) as real / Pow10(|frac|) as real)
  }

  lemma Distribute(x: int, p: int, y: int)
    ensures (x * p + y) * 10 == x * (10 * p) + y * 10
  {
  }

  lemma {:induction false} DigitsValueAppend(a: string, b: string)
    requires AllDigits(a) && AllDigits(b)
    ensures AllDigits(a + b)
    ensures DigitsValue(a + b) == DigitsValue(a) * Pow10(|b|) + DigitsValue(b)
    decreases |b|
  {
    assert AllDigits(a + b) by {
      forall i | 0 <= i < |a + b| ensures IsDigit((a + b)[i]) {
        if i < |a| { assert (a + b)[i] == a[i]; } else { assert (a + b)[i] == b[i - |a|]; }
      }
    }
    if |b| == 0 {
      assert a + b == a;
    } else {
      var b' := b[..|b| - 1];
      var last := b[|b| - 1] as int - '0' as int;
      assert AllDigits(b');
      assert (a + b)[..|a + b| - 1] == a + b';
      assert (a + b)[|a + b| - 1] == b[|b| - 1];
      DigitsValueAppend(a, b');
      var x, p, y := DigitsValue(a), Pow10(|b'|), DigitsValue(b');
      assert DigitsValue(a + b) == (x * p + y) * 10 + last;
      Distribute(x, p, y);
      assert Pow10(|b|) == 10 * p;
      assert DigitsValue(b) == y * 10 + last;
    }
  }

  lemma {:induction false} NatDigitsValue(n: nat)
    ensures DigitsValue(NatDigits(n)) == n
  {
    if n >= 10 {
      NatDigitsValue(n / 10);
      var s := NatDigits(n);
      assert s[..|s| - 1] == NatDigits(n / 10);
    }
  }

  lemma {:induction false} ZerosValue(k: nat)
    ensures DigitsValue(Zeros(k)) == 0
  {
    if k > 0 {
      assert Zeros(k)[..k - 1] == Zeros(k - 1);
      ZerosValue(k - 1);
    }
  }

  lemma {:induction false} DigitPrefixOf(a: string, b: string)
    requires AllDigits(a)
    requires |b| == 0 || !IsDigit(b[0])
    ensures DigitPrefix(a + b) == a
    decreases |a|
  {
    if |a| > 0 {
      assert (a + b)[1..] == a[1..] + b;
      DigitPrefixOf(a[1..], b);
      assert [a[0]] + a[1..] == a;
    } else {
      assert a + b == b;
    }
  }

  lemma {:induction false} PaddedValue(n: nat, places: nat)
    ensures DigitsValue(Padded(n, places)) == n
  {
    var m := NatDigits(n);
    NatDigitsValue(n);
    if |m| <= places {
      var z := Zeros(places + 1 - |m|);
      assert Padded(n, places) == z + m;
      ZerosValue(places + 1 - |m|);
      DigitsValueAppend(z, m);
      assert DigitsValue(z + m) == 0 * Pow10(|m|) + n;
    } else {
      assert Padded(n, places) == m;
    }
  }

  /** Reading a digit string with an optional fraction. */
  lemma {:induction false} ParseFixedBody(whole: string, frac: string, point: bool)
    requires AllDigits(whole) && |whole| >= 1 && AllDigits(frac)
    requires !point ==> frac == ""
    ensures ParseUnsigned(FixedBody(whole, frac, point))
      == Some(DigitsValue(whole) as real + DigitsValue(frac) as real / Pow10(|frac|) as real)
  {
    var tail := if point then "." + frac else "";
    var u := FixedBody(whole, frac, point);
    DigitPrefixOf(whole, tail);
    assert DigitPrefix(u) == whole;
    var after := u[|whole|..];
    assert after == tail;
    if point {
      assert after[1..] == frac + "";
      DigitPrefixOf(frac, "");
      assert DigitPrefix(after[1..]) == frac;
    }
  }

  lemma TrimStartKeeps(s: string)
    requires |s| > 0 && (s[0] == '-' || IsDigit(s[0]))
    ensures TrimStart(s) == s
  {
    assert !IsJsWhitespace(s[0]);
  }

  /** `parseFloat` of a sign followed by a string that starts with a digit. */
  lemma {:induction false} ParseSigned(negative: bool, body: string)
    requires |body| > 0 && IsDigit(body[0])
    ensures ParseFloat(Signed(negative, body)) == WithSign(negative, ParseUnsigned(body))
  {
    var s := Signed(negative, body);
    assert s[0] == '-' || s[0] == body[0];
    TrimStartKeeps(s);
    if negative { assert s[1..] == body; } else { assert s == body; }
  }

  /** A plain digit string reads as the number it denotes. */
  lemma UnsignedDigits(s: string)
    requires |s| > 0 && AllDigits(s)
    ensures ParseUnsigned(s) == Some(DigitsValue(s) as real)
  {
    ParseFixedBody(s, "", false);
    assert FixedBody(s, "", false) == s;
    assert DigitsValue("") == 0;
    assert Pow10(0) == 1;
  }

  /** `parseFloat` of a plain digit string is the number it denotes. */
  lemma ParseDigits(s: string)
    requires |s| > 0 && AllDigits(s)
    ensures ParseFloat(s) == Some(DigitsValue(s) as real)
  {
    ParseSigned(false, s);
    assert Signed(false, s) == s;
    UnsignedDigits(s);
  }

  /** The value of a single digit. */
  lemma DigitValue(c: char)
    requires IsDigit(c)
    ensures DigitsValue([c]) == c as int - '0' as int
  {
    assert [c][..0] == "";
    assert DigitsValue([c]) == DigitsValue("") * 10 + (c as int - '0' as int);
  }

  lemma FixedArith(n: nat, w: nat, f: nat, p: nat)
    requires p >= 1 && n == w * p + f
    ensures w as real + f as real / p as real == n as real / p as real
  {
    MulCast(w, p);
    var wr, fr, pr := w as real, f as real, p as real;
    assert n as real == wr * pr + fr;
    DivAdd(wr * pr, fr, pr);
    MulDiv(wr, pr);
  }

  /** Splitting the padded digits of `n` before the last `places` digits
      gives its integer and fractional parts. */
  lemma {:induction false} SplitValue(n: nat, places: nat, whole: string, frac: string)
    requires AllDigits(whole) && AllDigits(frac)
    requires whole + frac == Padded(n, places) && |frac| == places
    ensures DigitsValue(whole) as real + DigitsValue(frac) as real / Pow10(places) as real
      == n as real / Pow10(places) as real
  {
    PaddedValue(n, places);
    DigitsValueAppend(whole, frac);
    var p := Pow10(places);
    FixedArith(n, DigitsValue(whole), DigitsValue(frac), p);
  }

  lemma {:induction false} ParseRender(d: Decimal)
    ensures ParseFloat(Render(d)) == Some(Value(d))
  {
    var body := RenderedBody(d);
    ParseSigned(d.negative, body);
    SignedValue(d);
  }

  lemma SignedValue(d: Decimal)
    ensures WithSign(d.negative, Some(d.scaled as real / Pow10(d.places) as real)) == Some(Value(d))
  {
  }

  /** The text of a decimal after its sign: digits that read back as its
      magnitude. */
  lemma RenderedBody(d: Decimal) returns (body: string)
    ensures |body| > 0 && IsDigit(body[0])
    ensures Render(d) == Signed(d.negative, body)
    ensures ParseUnsigned(body) == Some(d.scaled as real / Pow10(d.places) as real)
  {
    var whole, frac := PaddedSplit(d);
    body := FixedBody(whole, frac, d.places != 0);
    assert body[0] == whole[0];
    BodyValue(d.scaled, d.places, whole, frac, d.places != 0);
  }

  /** The integer and fractional digits `Render` writes. */
  lemma PaddedSplit(d: Decimal) returns (whole: string, frac: string)
    ensures AllDigits(whole) && |whole| >= 1 && AllDigits(frac) && |frac| == d.places
    ensures whole + frac == Padded(d.scaled, d.places)
    ensures Render(d) == Signed(d.negative, FixedBody(whole, frac, d.places != 0))
  {
    var padded := Padded(d.scaled, d.places);
    var k := |padded| - d.places;
    whole, frac := padded[..k], padded[k..];
    assert whole + frac == padded;
  }

  /** The fixed-point text of a padded natural number reads back as that
      number scaled down. */
  lemma BodyValue(n: nat, places: nat, whole: string, frac: string, point: bool)
    requires AllDigits(whole) && |whole| >= 1 && AllDigits(frac)
    requires whole + frac == Padded(n, places) && |frac| == places
    requires !point ==> frac == ""
    ensures ParseUnsigned(FixedBody(whole, frac, point)) == Some(n as real / Pow10(places) as real)
  {
    ParseFixedBody(whole, frac, point);
    SplitValue(n, places, whole, frac);
  }

  /** `parseFloat(x.toFixed(places))`, as the sources write it: the string
      always parses, and back to the rounded decimal's exact value. */
  function FixedRound(x: real, places: nat): (r: real)
    ensures ParseFloat(Render(ToFixed(x, places))) == Some(r)
  {
    ParseRender(ToFixed(x, places));
    Value(ToFixed(x, places))
  }
}
