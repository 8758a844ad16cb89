/** Decimal text of 32-bit integers: the parts of java.lang.Integer that the summarizer
    relies on, Integer.toString (used when a range is appended to the output) and
    Integer.parseInt (used when a token is validated). */
module Decimal {
  import opened Wrappers

  /** Bounds of Java's int. */
  const IntMin: int := -0x8000_0000
  const IntMax: int := 0x7fff_ffff

  predicate IsDigit(c: char) {
    '0' <= c <= '9'
  }

  predicate AllDigits(s: string) {
    forall i :: 0 <= i < |s| ==> IsDigit(s[i])
  }

  function DigitChar(d: nat): (c: char)
    requires d < 10
    ensures IsDigit(c) && c as int - '0' as int == d
  {
    ('0' as int + d) as char
  }

  /** The value of a string of decimal digits, most significant digit first. */
  function DigitsValue(s: string): nat
    requires AllDigits(s)
  {
    if s == [] then 0 else 10 * DigitsValue(s[..|s| - 1]) + (s[|s| - 1] as int - '0' as int)
  }

  /** Integer.toString of a non-negative value: its shortest decimal digit string. */
  function NatToString(n: nat): (s: string)
    ensures s != []
  {
    if n < 10 then [DigitChar(n)] else NatToString(n / 10) + [DigitChar(n % 10)]
  }

  /** toString writes digits only, with no leading zero, and they read back as n. */
  lemma {:induction false} NatToStringDigits(n: nat)
    ensures AllDigits(NatToString(n))
    ensures DigitsValue(NatToString(n)) == n
    ensures NatToString(n)[0] == '0' ==> n == 0
  {
    var s := NatToString(n);
    if n >= 10 {
      NatToStringDigits(n / 10);
      assert s[..|s| - 1] == NatToString(n / 10);
    }
  }

  /** Integer.toString: a minus sign before the digits of a negative value. */
  function IntToString(x: int): (s: string)
    ensures s != []
  {
    if x < 0 then "-" + NatToString(-x) else NatToString(x)
  }

  /** toString ends in a digit and starts with '-' exactly when x is negative; a
      non-negative value is written in digits only. */
  lemma IntToStringShape(x: int)
    ensures var s := IntToString(x);
      IsDigit(s[|s| - 1]) && (s[0] == '-' <==> x < 0) && (x >= 0 ==> AllDigits(s))
  {
    NatToStringDigits(if x < 0 then -x else x);
  }

  /** Integer.parseInt in base 10: an optional '+' or '-', then one or more digits,
      and a value that fits in an int; anything else is a format error (None). */
  function ParseInt(s: string): (r: Option<int>)
    ensures r.Some? ==> IntMin <= r.value <= IntMax
    ensures r.Some? ==> s != [] && (s[0] == '-' || s[0] == '+' || IsDigit(s[0]))
    ensures r.Some? && r.value < 0 ==> s[0] == '-'
  {
    if s == [] then None
    else
      var digits := if s[0] == '-' || s[0] == '+' then s[1..] else s;
      if digits == [] || !AllDigits(digits) then None
      else
        var magnitude: int := DigitsValue(digits);
        var v := if s[0] == '-' then -magnitude else magnitude;
        if IntMin <= v <= IntMax then Some(v) else None
  }

  /** parseInt reads back every int that toString writes. */
  lemma ParseIntToString(x: int)
    requires IntMin <= x <= IntMax
    ensures ParseInt(IntToString(x)) == Some(x)
  {
    var s := IntToString(x);
    NatToStringDigits(if x < 0 then -x else x);
    if x < 0 {
      assert s[1..] == NatToString(-x);
    }
  }
}
