/** Decimal rendering of integers, as `%u`, `%lu` and `%d` print them. */
module Decimal {

  /** The character for a single decimal digit. */
  function DigitChar(d: nat): (c: char)
    requires d < 10
    ensures '0' <= c <= '9'
  {
    (48 + d) as char
  }

  /** The value of a digit character. */
  function DigitValue(c: char): (d: nat)
    requires '0' <= c <= '9'
    ensures d < 10
  {
    (c as int) - 48
  }

  /** The shortest decimal form of `n`: at least one digit, all digits, and
      no leading zero unless `n` is 0. */
  function NatToString(n: nat): (s: string)
    ensures |s| >= 1
    ensures forall i :: 0 <= i < |s| ==> '0' <= s[i] <= '9'
    ensures s[0] == '0' ==> n == 0 && |s| == 1
  {
    if n < 10 then [DigitChar(n)] else NatToString(n / 10) + [DigitChar(n % 10)]
  }

  /** `%d`: a minus sign before the digits of a negative number. The sign
      is there exactly for a negative number, and everything after it is
      digits; `ParseIntToString` pins the digits to the magnitude. */
  function IntToString(i: int): (s: string)
    ensures |s| >= 1
    ensures i < 0 <==> (|s| >= 2 && s[0] == '-')
    ensures forall k :: (if i < 0 then 1 else 0) <= k < |s| ==> '0' <= s[k] <= '9'
  {
    if i < 0 then "-" + NatToString(-i) else NatToString(i)
  }

  /** Reads a string of digits back as a number. */
  function ParseNat(s: string): nat
    requires forall i :: 0 <= i < |s| ==> '0' <= s[i] <= '9'
  {
    if s == [] then 0 else ParseNat(s[..|s| - 1]) * 10 + DigitValue(s[|s| - 1])
  }

  /** Rendering loses nothing: the digits read back as the number. */
  lemma {:induction false} ParseNatToString(n: nat)
    ensures ParseNat(NatToString(n)) == n
  {
    var s := NatToString(n);
    if n >= 10 {
      ParseNatToString(n / 10);
      assert s[..|s| - 1] == NatToString(n / 10);
    }
  }

  /** `%d` loses nothing: past the sign, the digits read back as the
      magnitude. */
  lemma {:induction false} ParseIntToString(i: int)
    ensures var s := IntToString(i);
            var d := if i < 0 then s[1..] else s;
            && (forall k :: 0 <= k < |d| ==> '0' <= d[k] <= '9')
            && ParseNat(d) == (if i < 0 then -i else i)
  {
    var s := IntToString(i);
    var n: nat := if i < 0 then -i else i;
    var d := if i < 0 then s[1..] else s;
    assert d == NatToString(n) by {
      if i < 0 {
        assert s == "-" + NatToString(n);
      }
    }
    ParseNatToString(n);
  }

  /** Distinct numbers render differently. */
  lemma NatToStringInjective(m: nat, n: nat)
    requires NatToString(m) == NatToString(n)
    ensures m == n
  {
    ParseNatToString(m);
    ParseNatToString(n);
  }
}
