/** Go's `time.Duration` (a signed 64-bit count of nanoseconds) and its
    `String` method, which renders the `ttl` parameter sent to Vault. */
module Durations {

  const MinDuration: int := -0x8000_0000_0000_0000
  const MaxDuration: int := 0x7FFF_FFFF_FFFF_FFFF

  type Duration = d: int | MinDuration <= d <= MaxDuration

  const Nanosecond: int := 1
  const Microsecond: int := 1000 * Nanosecond
  const Millisecond: int := 1000 * Microsecond
  const Second: int := 1000 * Millisecond
  const Minute: int := 60 * Second
  const Hour: int := 60 * Minute

  predicate IsDigit(c: char) {
    '0' <= c <= '9'
  }

  function Digit(d: nat): (c: char)
    requires d < 10
    ensures IsDigit(c)
  {
    ['0', '1', '2', '3', '4', '5', '6', '7', '8', '9'][d]
  }

  function DigitValue(c: char): (d: nat)
    requires IsDigit(c)
    ensures d < 10 && Digit(d) == c
  {
    (c as int) - ('0' as int)
  }

  /** Decimal digits of `n`, most significant first, "0" for zero (Go's
      `fmtInt`). */
  function DecimalString(n: nat): (r: string)
    ensures r != []
    ensures forall k :: 0 <= k < |r| ==> IsDigit(r[k])
  {
    if n < 10 then [Digit(n)] else DecimalString(n / 10) + [Digit(n % 10)]
  }

  /** The number a string of decimal digits denotes. */
  function DecimalValue(s: string): nat
    requires forall k :: 0 <= k < |s| ==> IsDigit(s[k])
  {
    if s == [] then 0 else 10 * DecimalValue(s[..|s| - 1]) + DigitValue(s[|s| - 1])
  }

  /** Reading back the rendered digits gives the number. */
  lemma {:induction false} DecimalRoundTrip(n: nat)
    ensures DecimalValue(DecimalString(n)) == n
  {
    var r := DecimalString(n);
    if n >= 10 {
      DecimalRoundTrip(n / 10);
      assert r[..|r| - 1] == DecimalString(n / 10);
    }
  }

  /** The `p` low-order decimal digits of `v`, zero-padded. */
  function PaddedDigits(v: nat, p: nat): (r: string)
    ensures |r| == p
  {
    if p == 0 then [] else PaddedDigits(v / 10, p - 1) + [Digit(v % 10)]
  }

  function StripTrailingZeros(s: string): (r: string)
    ensures |r| <= |s| && r == s[..|r|]
    ensures r != [] ==> r[|r| - 1] != '0'
  {
    if s == [] || s[|s| - 1] != '0' then s else StripTrailingZeros(s[..|s| - 1])
  }

  /** Go's `fmtFrac`: the fraction `v / 10^prec` after the decimal point,
      without trailing zeros, and without the point when it is zero. */
  function Fraction(v: nat, prec: nat): string {
    var ds := StripTrailingZeros(PaddedDigits(v, prec));
    if ds == [] then "" else "." + ds
  }

  /** A zero fraction prints as nothing. */
  lemma {:induction false} ZeroFraction(prec: nat)
    ensures Fraction(0, prec) == ""
  {
    ZeroDigitsStrip(prec);
  }

  lemma {:induction false} ZeroDigitsStrip(p: nat)
    ensures StripTrailingZeros(PaddedDigits(0, p)) == []
  {
    if p > 0 {
      ZeroDigitsStrip(p - 1);
      var ds := PaddedDigits(0, p);
      assert ds[|ds| - 1] == '0';
      assert ds[..|ds| - 1] == PaddedDigits(0, p - 1);
    }
  }

  lemma MulSign(x: int, b: int)
    requires b > 0
    ensures x >= 1 ==> x * b >= b
    ensures x <= -1 ==> x * b <= -b
  {
  }

  lemma MulDiv(a: nat, b: nat)
    requires b > 0
    ensures (a * b) / b == a && (a * b) % b == 0
  {
    var q, r := (a * b) / b, (a * b) % b;
    assert a * b == q * b + r;
    assert (a - q) * b == a * b - q * b;
    MulSign(a - q, b);
  }

  /** Magnitude of a duration; Go negates the value as an unsigned 64-bit
      integer, which is exact for every int64 including the minimum. */
  function Magnitude(d: Duration): nat {
    var x: int := d;
    if x < 0 then -x else x
  }

  /** A non-negative duration of at least one second: hours, minutes and
      seconds, leading zero units omitted. */
  function LongForm(u: nat): string
    requires u >= Second
  {
    var secs := Fraction(u % Second, 9);
    var t := u / Second;
    var s := DecimalString(t % 60) + secs + "s";
    var m := t / 60;
    if m == 0 then s
    else if m / 60 == 0 then DecimalString(m % 60) + "m" + s
    else DecimalString(m / 60) + "h" + DecimalString(m % 60) + "m" + s
  }

  /** A duration below one second in the largest unit that fits. */
  function ShortForm(u: nat): string
    requires u < Second
  {
    if u == 0 then "0s"
    else if u < Microsecond then DecimalString(u) + "ns"
    else if u < Millisecond then DecimalString(u / 1000) + Fraction(u % 1000, 3) + "\U{00B5}s"
    else DecimalString(u / 1_000_000) + Fraction(u % 1_000_000, 6) + "ms"
  }

  /** Go's `time.Duration.String`. */
  function DurationString(d: Duration): (r: string)
    ensures r != [] && r[|r| - 1] == 's'
    ensures (r[0] == '-') <==> d < 0
  {
    var u := Magnitude(d);
    var body := if u < Second then ShortForm(u) else LongForm(u);
    if d < 0 then "-" + body else body
  }

  lemma HoursArithmetic(h: nat)
    ensures h * Hour == (h * 3600) * Second
    ensures (h * Hour) / Second == h * 3600 && (h * Hour) % Second == 0
    ensures (h * 3600) / 60 == h * 60 && (h * 3600) % 60 == 0
    ensures (h * 60) / 60 == h && (h * 60) % 60 == 0
  {
    MulDiv(h * 3600, Second);
    assert h * 3600 == (h * 60) * 60;
    MulDiv(h * 60, 60);
    MulDiv(h, 60);
  }

  /** A positive whole number of hours prints as "<h>h0m0s". */
  lemma WholeHoursString(h: nat)
    requires 0 < h && h * Hour <= MaxDuration
    ensures DurationString(h * Hour) == DecimalString(h) + "h0m0s"
  {
    var u := h * Hour;
    MulSign(h, Hour);
    assert u >= Second;
    WholeHoursLongForm(h);
  }

  lemma WholeHoursLongForm(h: nat)
    requires 0 < h
    ensures h * Hour >= Second
    ensures LongForm(h * Hour) == DecimalString(h) + "h0m0s"
  {
    var u := h * Hour;
    MulSign(h, Hour);
    HoursArithmetic(h);
    ZeroFraction(9);
    assert DecimalString(0) == "0";
    var t := u / Second;
    assert t == h * 3600 && t % 60 == 0;
    var m := t / 60;
    assert m == h * 60 && m % 60 == 0 && m / 60 == h;
    assert LongForm(u) == DecimalString(h) + "h" + "0" + "m" + ("0" + "" + "s");
  }
}
