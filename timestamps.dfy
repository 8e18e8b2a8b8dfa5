/** Event timestamps. The source keeps seconds since the epoch as a float
    and writes them with `'%.7f'`; this model keeps them as a whole number
    of ticks of 10^-7 seconds, which is exactly what seven decimals show. */
module Timestamps {
  import opened Wrappers
  import opened Text
  import opened Numbers

  /** Ticks per second: seven decimal places. */
  const TicksPerSecond: nat := 10000000

  /** A non-negative tick count as seconds with seven decimals. */
  function UnsignedText(a: nat): (s: string)
    ensures s != [] && IsDigit(s[0]) && IsDigit(s[|s| - 1])
  {
    NatToDecimal(a / TicksPerSecond) + "." + FixedDigits(a % TicksPerSecond, 7)
  }

  /** `'%.7f' % t`: an optional minus sign, the whole seconds, a point and
      exactly seven fractional digits. */
  function FormatTicks(t: int): (s: string)
    ensures s != [] && IsDigit(s[|s| - 1])
    ensures s[0] == '-' || IsDigit(s[0])
  {
    if t < 0 then "-" + UnsignedText(-t) else UnsignedText(t)
  }

  /** The unsigned part of a decimal: digits with at most one point and at
      least one digit, at most seven of them after the point. */
  function UnsignedTicks(body: string): Option<nat>
  {
    var (whole, frac) := match IndexOf(body, '.')
      case None => (body, [])
      case Some(i) => (body[..i], body[i + 1..]);
    if AllDigits(whole) && AllDigits(frac) && |whole| + |frac| > 0 && |frac| <= 7 then
      Some(DigitsValue(whole) * TicksPerSecond + DigitsValue(frac) * Pow10(7 - |frac|))
    else None
  }

  /** Python's `float(text)` on fixed-point decimals: surrounding whitespace,
      an optional sign, then an unsigned decimal. `None` stands for Python's
      `ValueError`, and also for inputs with more than seven fractional
      digits, which have no exact tick value. */
  function ParseTicks(text: string): (r: Option<int>)
    ensures r.Some? ==> Strip(text) != []
  {
    var t := Strip(text);
    var negative := t != [] && t[0] == '-';
    var body := if t != [] && (t[0] == '-' || t[0] == '+') then t[1..] else t;
    match UnsignedTicks(body)
    case None => None
    case Some(m) => var v: int := m; Some(if negative then -v else v)
  }

  /** The formatted timestamp is a single line. */
  lemma FormatTicksOneLine(t: int)
    ensures '\n' !in FormatTicks(t)
  {
    var a: nat := if t < 0 then -t else t;
    var w, f := NatToDecimal(a / TicksPerSecond), FixedDigits(a % TicksPerSecond, 7);
    assert '\n' !in w && '\n' !in f;
    assert UnsignedText(a) == w + "." + f;
  }

  /** Digits, a point and more digits split at that point. */
  lemma PointSplit(whole: string, frac: string, body: string)
    requires AllDigits(whole) && body == whole + "." + frac
    ensures IndexOf(body, '.') == Some(|whole|)
    ensures body[..|whole|] == whole && body[|whole| + 1..] == frac
  {
    NoCharInDigits(whole, '.');
    IndexOfAfter(whole, '.', frac);
  }

  lemma {:induction false} UnsignedRoundTrip(a: nat)
    ensures UnsignedTicks(UnsignedText(a)) == Some(a)
  {
    var whole := NatToDecimal(a / TicksPerSecond);
    var frac := FixedDigits(a % TicksPerSecond, 7);
    var body := UnsignedText(a);
    PointSplit(whole, frac, body);
    NatToDecimalValue(a / TicksPerSecond);
    assert Pow10(7) == TicksPerSecond;
    FixedDigitsValue(a % TicksPerSecond, 7);
    assert Pow10(0) == 1;
  }

  /** What `'%.7f'` writes, `float()` reads back, with or without the
      whitespace in front that the header line puts there. */
  lemma {:induction false} ParseFormatTicks(t: int, pad: string)
    requires forall k :: 0 <= k < |pad| ==> IsSpace(pad[k])
    ensures ParseTicks(pad + FormatTicks(t)) == Some(t)
  {
    var s := FormatTicks(t);
    StripPadded(pad, s);
    var a: nat := if t < 0 then -t else t;
    var u := UnsignedText(a);
    UnsignedRoundTrip(a);
    if t < 0 {
      assert s == "-" + u;
      assert s[1..] == u;
    } else {
      assert s == u;
      assert s[0] != '-' && s[0] != '+';
    }
  }
}
