/** Decimal integers as the codec writes them (`'%d'`) and reads them back
    (Python's `int(text)`). */
module Numbers {
  import opened Wrappers
  import opened Text

  function Pow10(k: nat): (r: nat)
    ensures r >= 1
  {
    if k == 0 then 1 else 10 * Pow10(k - 1)
  }

  predicate IsDigit(c: char) {
    '0' <= c <= '9'
  }

  predicate AllDigits(s: string) {
    forall k :: 0 <= k < |s| ==> IsDigit(s[k])
  }

  function DigitChar(d: nat): (c: char)
    requires d < 10
    ensures IsDigit(c) && c as int - '0' as int == d
  {
    ('0' as int + d) as char
  }

  /** The value of a string of decimal digits, most significant first. */
  function DigitsValue(s: string): nat
    requires AllDigits(s)
    decreases |s|
  {
    if s == [] then 0 else 10 * DigitsValue(s[..|s| - 1]) + (s[|s| - 1] as int - '0' as int)
  }

  /** `'%d' % n` for a non-negative `n`: its shortest decimal form. */
  function NatToDecimal(n: nat): (s: string)
    ensures s != [] && AllDigits(s)
    ensures |s| > 1 ==> s[0] != '0'
  {
    if n < 10 then [DigitChar(n)] else NatToDecimal(n / 10) + [DigitChar(n % 10)]
  }

  /** `r` written with exactly `k` digits, padded with leading zeros. */
  function FixedDigits(r: nat, k: nat): (s: string)
    ensures |s| == k && AllDigits(s)
  {
    if k == 0 then [] else FixedDigits(r / 10, k - 1) + [DigitChar(r % 10)]
  }

  lemma {:induction false} NatToDecimalValue(n: nat)
    ensures DigitsValue(NatToDecimal(n)) == n
  {
    if n >= 10 {
      NatToDecimalValue(n / 10);
      var s := NatToDecimal(n);
      assert s[..|s| - 1] == NatToDecimal(n / 10);
    }
  }

  lemma {:induction false} FixedDigitsValue(r: nat, k: nat)
    requires r < Pow10(k)
    ensures DigitsValue(FixedDigits(r, k)) == r
  {
    if k > 0 {
      assert r / 10 < Pow10(k - 1);
      FixedDigitsValue(r / 10, k - 1);
      var s := FixedDigits(r, k);
      assert s[..|s| - 1] == FixedDigits(r / 10, k - 1);
    }
  }

  /** Digits contain no character that is not a digit. */
  lemma NoCharInDigits(s: string, c: char)
    requires AllDigits(s) && !IsDigit(c)
    ensures c !in s
  {
  }

  /** Python's `int(text)` in base 10, `None` where Python raises
      `ValueError`: surrounding whitespace, an optional sign, then at least
      one ASCII digit. */
  function ParseInt(text: string): (r: Option<int>)
    ensures r.Some? ==> Strip(text) != []
  {
    var t := Strip(text);
    var negative := t != [] && t[0] == '-';
    var body := if t != [] && (t[0] == '-' || t[0] == '+') then t[1..] else t;
    if body != [] && AllDigits(body) then
      var magnitude: int := DigitsValue(body);
      Some(if negative then -magnitude else magnitude)
    else None
  }

  /** What `'%d'` writes, `int()` reads back. */
  lemma ParseIntOfDecimal(n: nat)
    ensures ParseInt(NatToDecimal(n)) == Some(n)
  {
    var s := NatToDecimal(n);
    assert forall k :: 0 <= k < |s| ==> !IsSpace(s[k]);
    StripExact(s, 0, |s|);
    assert s[0..|s|] == s;
    NatToDecimalValue(n);
  }
}
