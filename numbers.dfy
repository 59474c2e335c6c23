/**
 * Decimal text of numbers: how the interpreter writes an integer or a float
 * (JavaScript's `toString` on a number) and reads a number literal back
 * (JavaScript's unary `+` on the literal's text).
 */
module Numerals {
  import opened Wrappers

  predicate IsDigitChar(c: char)
  {
    '0' <= c <= '9'
  }

  predicate AllDigits(s: string)
  {
    forall i :: 0 <= i < |s| ==> IsDigitChar(s[i])
  }

  function DigitChar(d: nat): (c: char)
    requires d < 10
    ensures IsDigitChar(c) && (c as int) - ('0' as int) == d
  {
    (d + '0' as int) as char
  }

  /** The decimal text of a natural number, without leading zeros. */
  function NatText(n: nat): (s: string)
    ensures |s| > 0 && AllDigits(s)
    ensures s[0] == '0' ==> n == 0
    decreases n
  {
    if n < 10 then [DigitChar(n)] else NatText(n / 10) + [DigitChar(n % 10)]
  }

  /** `toString` of an integral number. */
  function IntText(i: int): (s: string)
    ensures |s| > 0
    ensures i < 0 <==> s[0] == '-'
  {
    if i < 0 then "-" + NatText(-i) else NatText(i)
  }

  /** The value of a run of decimal digits. */
  function DigitsValue(s: string): nat
    requires AllDigits(s)
    decreases |s|
  {
    if s == [] then 0 else 10 * DigitsValue(s[..|s| - 1]) + ((s[|s| - 1] as int) - ('0' as int))
  }

  /** Reading back the text of a natural number gives the number. */
  lemma {:induction false} NatTextRoundTrip(n: nat)
    ensures DigitsValue(NatText(n)) == n
    decreases n
  {
    if n >= 10 {
      NatTextRoundTrip(n / 10);
      var s := NatText(n);
      assert s[..|s| - 1] == NatText(n / 10);
    }
  }

  /** The value of the fractional digits `s` read as `0.s`. */
  function FractionValue(s: string): real
    requires AllDigits(s)
    decreases |s|
  {
    if s == [] then 0.0 else (((s[0] as int) - ('0' as int)) as real + FractionValue(s[1..])) / 10.0
  }

  /**
   * Unary `+` on a number literal: a run of digits, optionally followed by a
   * dot and a further run of digits.  Any other text is not a number (NaN).
   */
  function ParseDecimal(s: string): (r: Option<real>)
    ensures r.Some? && AllDigits(s) ==> r.value == DigitsValue(s) as real
  {
    if |s| > 0 && AllDigits(s) then Some(DigitsValue(s) as real)
    else if exists k :: 0 < k < |s| - 1 && s[k] == '.' && AllDigits(s[..k]) && AllDigits(s[k + 1..]) then
      var k :| 0 < k < |s| - 1 && s[k] == '.' && AllDigits(s[..k]) && AllDigits(s[k + 1..]);
      Some(DigitsValue(s[..k]) as real + FractionValue(s[k + 1..]))
    else None
  }

  /** Integer text, such as the one `unquote` writes into a literal's token, reads back as its value. */
  lemma IntTextParses(n: nat)
    ensures ParseDecimal(IntText(n)) == Some(n as real)
  {
    NatTextRoundTrip(n);
  }

  /**
   * Up to `k` fractional digits of `f`, where `0 <= f < 1`; stops as soon as
   * the rest is zero.
   */
  function FractionText(f: real, k: nat): (s: string)
    requires 0.0 <= f < 1.0
    ensures AllDigits(s) && |s| <= k
    decreases k
  {
    if k == 0 || f == 0.0 then ""
    else
      var d := (f * 10.0).Floor;
      assert 0 <= d < 10;
      [DigitChar(d)] + FractionText(f * 10.0 - d as real, k - 1)
  }

  function TrimZeros(s: string): (t: string)
    ensures |t| <= |s| && t == s[..|t|]
    ensures |t| > 0 ==> t[|t| - 1] != '0'
    ensures forall i :: |t| <= i < |s| ==> s[i] == '0'
    decreases |s|
  {
    if |s| > 0 && s[|s| - 1] == '0' then TrimZeros(s[..|s| - 1]) else s
  }

  /**
   * `toString` of a float: the integer part, then the fractional digits
   * (at most 17) when there are any.  An integral float prints like an integer.
   */
  function FloatText(r: real): (s: string)
    ensures r == r.Floor as real ==> s == IntText(r.Floor)
  {
    var m := if r < 0.0 then -r else r;
    var whole := m.Floor;
    var frac := TrimZeros(FractionText(m - whole as real, 17));
    var body := NatText(whole) + (if frac == "" then "" else "." + frac);
    if r == r.Floor as real then IntText(r.Floor)
    else if r < 0.0 then "-" + body else body
  }
}
