/** Decimal text of unsigned integers as Rust's standard library writes and reads it:
    `Display` for `u8`/`u16`/`u32` and `FromStr` for the unsigned types, which the XML
    deserializer uses for integer fields. */
module Decimal {
  import opened Common

  predicate IsDigit(c: char) { '0' <= c <= '9' }

  predicate AllDigits(s: string) { forall i | 0 <= i < |s| :: IsDigit(s[i]) }

  function DigitValue(c: char): (d: nat)
    requires IsDigit(c)
    ensures d < 10
  {
    c as int - '0' as int
  }

  function DigitChar(d: nat): (c: char)
    requires d < 10
    ensures IsDigit(c) && DigitValue(c) == d
  {
    (d + '0' as int) as char
  }

  /** The value of a run of decimal digits, most significant digit first. */
  function DigitsValue(s: string): nat
    requires AllDigits(s)
  {
    if s == [] then 0 else 10 * DigitsValue(s[..|s| - 1]) + DigitValue(s[|s| - 1])
  }

  /** Rust's `Display` for an unsigned integer: the shortest run of decimal digits
      whose value is n (no sign, no leading zero). */
  function NatToDecimal(n: nat): (s: string)
    ensures s != [] && AllDigits(s)
    ensures DigitsValue(s) == n
    ensures |s| > 1 ==> s[0] != '0'
  {
    if n < 10 then [DigitChar(n)]
    else
      var t := NatToDecimal(n / 10);
      var s := t + [DigitChar(n % 10)];
      assert s[..|s| - 1] == t;
      assert s[0] == t[0];
      assert |t| == 1 ==> DigitValue(t[0]) == n / 10;
      s
  }

  /** Text without a leading zero is what `Display` writes for its value: the other
      half of the round trip, so each number has exactly one displayed form. */
  lemma {:induction false} DisplayOfCanonical(s: string)
    requires s != [] && AllDigits(s)
    requires |s| > 1 ==> s[0] != '0'
    ensures NatToDecimal(DigitsValue(s)) == s
  {
    var n := DigitsValue(s);
    var last := s[|s| - 1];
    if |s| == 1 {
      assert s == [last];
      assert DigitChar(DigitValue(last)) == last;
    } else {
      var p := s[..|s| - 1];
      assert p[0] == s[0];
      assert AllDigits(p);
      LeadingDigitPositive(p);
      DisplayOfCanonical(p);
      assert n / 10 == DigitsValue(p) && n % 10 == DigitValue(last);
      assert DigitChar(DigitValue(last)) == last;
      assert s == p + [last];
    }
  }

  /** A digit run that starts with a digit other than '0' has a positive value. */
  lemma {:induction false} LeadingDigitPositive(s: string)
    requires s != [] && AllDigits(s) && s[0] != '0'
    ensures DigitsValue(s) >= 1
  {
    if |s| > 1 {
      var p := s[..|s| - 1];
      assert p[0] == s[0];
      assert AllDigits(p);
      LeadingDigitPositive(p);
    }
  }

  /** The digits Rust's `FromStr` for an unsigned type reads: a single leading '+'
      is accepted and dropped. */
  function UnsignedDigits(s: string): string
  {
    if |s| > 0 && s[0] == '+' then s[1..] else s
  }

  /** Rust's `FromStr` for an unsigned integer type whose values lie below `bound`
      (2^16 for `u16`, 2^32 for `u32`): empty text, a lone '+', any character that is
      not a digit (a leading '-' included) and overflow are all errors. */
  function ParseUnsigned(s: string, bound: nat): (r: Option<nat>)
    ensures r.Some? ==> r.value < bound
  {
    var d := UnsignedDigits(s);
    if d != [] && AllDigits(d) && DigitsValue(d) < bound then Some(DigitsValue(d)) else None
  }

  /** Reading back what `Display` wrote gives the number, exactly when it is in range. */
  lemma ParseDisplayed(n: nat, bound: nat)
    ensures ParseUnsigned(NatToDecimal(n), bound) == if n < bound then Some(n) else None
  {
    var s := NatToDecimal(n);
    assert IsDigit(s[0]);
  }

  /** A leading zero does not change the value of a digit run. */
  lemma {:induction false} LeadingZeroValue(s: string)
    requires AllDigits(s)
    ensures AllDigits("0" + s) && DigitsValue("0" + s) == DigitsValue(s)
  {
    var z := "0" + s;
    assert AllDigits(z) by {
      forall i | 0 <= i < |z| ensures IsDigit(z[i]) {
        if i > 0 { assert z[i] == s[i - 1]; }
      }
    }
    if s != [] {
      var p := s[..|s| - 1];
      LeadingZeroValue(p);
      assert z[..|z| - 1] == "0" + p;
      assert z[|z| - 1] == s[|s| - 1];
    }
  }

  /** So text with leading zeros ("007") is accepted with its plain value. */
  lemma LeadingZeroAccepted(s: string, bound: nat)
    requires s != [] && AllDigits(s)
    ensures ParseUnsigned("0" + s, bound) == ParseUnsigned(s, bound)
  {
    LeadingZeroValue(s);
    assert ("0" + s)[0] == '0';
    assert s[0] != '+' by { assert IsDigit(s[0]); }
  }

  /** A sign of '+' is accepted, a sign of '-' never is, even before zero. */
  lemma SignedText(s: string, bound: nat)
    ensures ParseUnsigned("+" + s, bound) == (if s != [] && s[0] == '+' then None else ParseUnsigned(s, bound))
    ensures ParseUnsigned("-" + s, bound) == None
  {
    assert ("+" + s)[1..] == s;
    assert !IsDigit(("-" + s)[0]);
    if s != [] && s[0] == '+' {
      assert !IsDigit(s[0]);
    }
  }
}
