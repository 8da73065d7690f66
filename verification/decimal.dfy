/**
  Decimal text of 32-bit signed integers: Rust's `str::parse::<i32>` (used by
  the reader to recognise integer atoms) and the `{}` rendering of an `i32`
  (used by `Display`).
 */
module Decimal {
  import opened Results

  const I32Min: int := -0x8000_0000
  const I32Max: int := 0x7FFF_FFFF

  type I32 = i: int | I32Min <= i <= I32Max

  predicate IsDigit(c: char) {
    '0' <= c <= '9'
  }

  predicate AllDigits(s: string) {
    forall k :: 0 <= k < |s| ==> IsDigit(s[k])
  }

  function DigitValue(c: char): nat
    requires IsDigit(c)
  {
    (c as int) - ('0' as int)
  }

  function DigitChar(d: nat): (c: char)
    requires d < 10
    ensures IsDigit(c) && DigitValue(c) == d
  {
    ('0' as int + d) as char
  }

  /** The value of a run of ASCII digits, most significant first. */
  function DigitsValue(s: string): nat
    requires AllDigits(s)
  {
    if |s| == 0 then 0 else DigitsValue(s[..|s| - 1]) * 10 + DigitValue(s[|s| - 1])
  }

  /**
    `str::parse::<i32>`: an optional `+` or `-`, then at least one ASCII
    digit and nothing else, and the value must fit in 32 bits.
   */
  function ParseI32(s: string): (r: Option<I32>)
    ensures r.Some? ==> 0 < |s| && (IsDigit(s[0]) || s[0] == '+' || s[0] == '-')
    ensures r.Some? ==> (r.value < 0 ==> s[0] == '-')
  {
    var signed := |s| > 0 && (s[0] == '+' || s[0] == '-');
    var digits := if signed then s[1..] else s;
    if |digits| == 0 || !AllDigits(digits) then None
    else
      var v: int := if signed && s[0] == '-' then -(DigitsValue(digits) as int) else DigitsValue(digits);
      if I32Min <= v <= I32Max then Some(v) else None
  }

  /** Shortest decimal digits of a natural number. */
  function NatToDigits(n: nat): (s: string)
    ensures |s| > 0 && AllDigits(s)
  {
    if n < 10 then [DigitChar(n)] else NatToDigits(n / 10) + [DigitChar(n % 10)]
  }

  /** The `{}` rendering of an integer: a `-` for negatives, then the digits. */
  function IntToString(i: int): string {
    if i < 0 then "-" + NatToDigits(-i) else NatToDigits(i)
  }

  lemma {:induction false} NatToDigitsValue(n: nat)
    ensures DigitsValue(NatToDigits(n)) == n
  {
    if n >= 10 {
      var s := NatToDigits(n);
      NatToDigitsValue(n / 10);
      assert s[..|s| - 1] == NatToDigits(n / 10);
    }
  }

  /** Rendering an `i32` and parsing the text back gives the same integer. */
  lemma ParseRendered(i: I32)
    ensures ParseI32(IntToString(i)) == Some(i)
  {
    var s := IntToString(i);
    if i < 0 {
      var d := NatToDigits(-(i as int));
      NatToDigitsValue(-(i as int));
      assert s == "-" + d && s[0] == '-' && s[1..] == d;
      assert DigitsValue(s[1..]) == -(i as int);
    } else {
      var d := NatToDigits(i);
      NatToDigitsValue(i);
      assert s == d && IsDigit(s[0]);
    }
  }
}
