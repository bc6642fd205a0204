// Decimal text of integers: placeholder numbers and the text bound for `numeric` operands.

module Decimals {
  import opened Identifiers
  import opened Results

  predicate AllDigits(s: string) {
    forall i | 0 <= i < |s| :: IsDigit(s[i])
  }

  function DigitChar(d: nat): char
    requires d < 10
  {
    ('0' as int + d) as char
  }

  function DigitValue(c: char): nat
    requires IsDigit(c)
  {
    c as int - '0' as int
  }

  /** `to_string` on an unsigned integer. */
  function NatText(n: nat): string {
    if n < 10 then [DigitChar(n)] else NatText(n / 10) + [DigitChar(n % 10)]
  }

  /** `to_string` on a signed integer. */
  function IntText(i: int): string {
    if i < 0 then "-" + NatText(-i) else NatText(i)
  }

  /** Reads a digit string back, the way the server reads it. */
  function NatValue(s: string): nat
    requires AllDigits(s)
  {
    if s == "" then 0 else 10 * NatValue(s[..|s| - 1]) + DigitValue(s[|s| - 1])
  }

  /** Reads an optionally signed digit string; `None` for any other text. */
  function IntValue(s: string): Option<int> {
    if s != "" && s[0] == '-' then
      if |s| > 1 && AllDigits(s[1..]) then Some(-1 * NatValue(s[1..])) else None
    else if s != "" && AllDigits(s) then Some(NatValue(s))
    else None
  }

  lemma {:induction false} NatTextRoundTrip(n: nat)
    ensures NatText(n) != "" && AllDigits(NatText(n))
    ensures NatValue(NatText(n)) == n
  {
    if n < 10 {
      assert NatText(n)[..0] == "";
    } else {
      NatTextRoundTrip(n / 10);
      var s := NatText(n);
      assert s[..|s| - 1] == NatText(n / 10);
    }
  }

  /** Decimal text is a faithful code for every integer, so for every `i64` and `u64`. */
  lemma {:induction false} IntTextRoundTrip(i: int)
    ensures IntValue(IntText(i)) == Some(i)
  {
    NatTextRoundTrip(if i < 0 then -i else i);
    if i < 0 {
      assert IntText(i)[1..] == NatText(-i);
    }
  }
}
