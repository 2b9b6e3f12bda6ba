/** Unsigned 64-bit integers as decimal text: `to_string` and `parse::<u64>`. */
module Decimal {
  import opened Base
  import opened Text

  predicate IsDigit(c: char) {
    '0' <= c <= '9'
  }

  predicate AllDigits(s: string) {
    forall i | 0 <= i < |s| :: IsDigit(s[i])
  }

  function DigitOf(d: nat): (c: char)
    requires d < 10
    ensures IsDigit(c)
  {
    ('0' as int + d) as char
  }

  function Value(s: string): nat
    requires AllDigits(s)
  {
    if s == "" then 0 else Value(s[..|s| - 1]) * 10 + (s[|s| - 1] as int - '0' as int)
  }

  function ToString(n: nat): string {
    if n < 10 then [DigitOf(n)] else ToString(n / 10) + [DigitOf(n % 10)]
  }

  /** A leading `+` is accepted, an empty text and an overflow are not. */
  function ParseU64(s: string): (r: Option<nat>)
    ensures r.Some? ==> r.value < U64_LIMIT
  {
    var digits := if StartsWith(s, "+") then s[1..] else s;
    if digits == "" || !AllDigits(digits) || Value(digits) >= U64_LIMIT then None else Some(Value(digits))
  }

  lemma {:induction false} ToStringDigits(n: nat)
    ensures AllDigits(ToString(n)) && ToString(n) != "" && Value(ToString(n)) == n
  {
    if n >= 10 {
      ToStringDigits(n / 10);
      var s := ToString(n);
      assert s[..|s| - 1] == ToString(n / 10);
    } else {
      assert [DigitOf(n)][..0] == "";
    }
  }

  /** What is printed is read back, whenever it fits. */
  lemma ParseOfToString(n: nat)
    ensures ParseU64(ToString(n)) == if n < U64_LIMIT then Some(n) else None
  {
    ToStringDigits(n);
    assert IsDigit(ToString(n)[0]);
  }

  lemma DigitsAreTrimmed(s: string)
    requires AllDigits(s)
    ensures Trim(s) == s
  {
  }
}
