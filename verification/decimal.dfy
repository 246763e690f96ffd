/**
 * Decimal rendering of natural numbers, as a template literal such as
 * `${nextUserId}` produces it. The store builds every generated id this way.
 */
module Decimal {

  predicate IsDigit(c: char)
  {
    '0' <= c <= '9'
  }

  function Digit(d: nat): (c: char)
    requires d < 10
    ensures IsDigit(c)
  {
    (48 + d) as char
  }

  /** The shortest decimal numeral for `n`, without sign or leading zeros. */
  function NatToString(n: nat): (r: string)
    ensures |r| >= 1 && IsDigit(r[0])
    ensures |r| == 1 <==> n < 10
  {
    if n < 10 then [Digit(n)] else NatToString(n / 10) + [Digit(n % 10)]
  }

  /** Distinct numbers render as distinct numerals. */
  lemma {:induction false} NatToStringInjective(a: nat, b: nat)
    requires NatToString(a) == NatToString(b)
    ensures a == b
  {
    var s := NatToString(a);
    if a >= 10 && b >= 10 {
      assert NatToString(a / 10) == s[..|s| - 1] == NatToString(b / 10);
      NatToStringInjective(a / 10, b / 10);
      assert Digit(a % 10) == s[|s| - 1] == Digit(b % 10);
    } else if a < 10 && b < 10 {
      assert Digit(a) == s[0] == Digit(b);
    }
  }

  /** A numeral never equals a numeral behind a non-digit prefix letter. */
  lemma PrefixedNumeralIsNotNumeral(c: char, a: nat, b: nat)
    requires !IsDigit(c)
    ensures [c] + NatToString(a) != NatToString(b)
  {
    assert ([c] + NatToString(a))[0] == c;
  }

  /** Two numerals behind the same prefix letter coincide only for the same number. */
  lemma PrefixedNumeralInjective(c: char, a: nat, b: nat)
    requires [c] + NatToString(a) == [c] + NatToString(b)
    ensures a == b
  {
    assert NatToString(a) == ([c] + NatToString(a))[1..];
    assert NatToString(b) == ([c] + NatToString(b))[1..];
    NatToStringInjective(a, b);
  }
}
