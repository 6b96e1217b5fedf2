/** Decimal rendering and parsing of integers, as `String(n)` and property-key
    lookup use them for the integer ids of the protocol. */
module Decimal {
  import opened Outcomes

  predicate IsDigit(c: char) {
    '0' <= c <= '9'
  }

  predicate AllDigits(s: string) {
    forall i | 0 <= i < |s| :: IsDigit(s[i])
  }

  function DigitValue(c: char): (d: nat)
    requires IsDigit(c)
    ensures d < 10
  {
    c as int - '0' as int
  }

  function DigitChar(d: nat): (c: char)
    requires d < 10
    ensures IsDigit(c) && DigitValue(c) == d
  {
    ('0' as int + d) as char
  }

  /** Shortest decimal text of `n`: no sign, no leading zero. */
  function NatToString(n: nat): (s: string)
    ensures |s| >= 1 && AllDigits(s)
  {
    if n < 10 then [DigitChar(n)] else NatToString(n / 10) + [DigitChar(n % 10)]
  }

  /** `String(n)` for an integer-valued number. */
  function IntToString(n: int): (s: string)
    ensures |s| >= 1
    ensures n < 0 <==> s[0] == '-'
    ensures n >= 0 ==> s == NatToString(n)
    ensures n < 0 ==> s[1..] == NatToString(-n)
  {
    if n < 0 then "-" + NatToString(-n) else NatToString(n)
  }

  /** Value of a digit string, most significant digit first. */
  function DigitsValue(s: string): nat
    requires AllDigits(s)
  {
    if |s| == 0 then 0 else DigitsValue(s[..|s| - 1]) * 10 + DigitValue(s[|s| - 1])
  }

  /** A digit string as `NatToString` produces it: at least one digit and no leading zero. */
  predicate Canonical(s: string) {
    |s| >= 1 && AllDigits(s) && (s[0] == '0' ==> |s| == 1)
  }

  /** The natural number whose shortest decimal text is `s`, if any. */
  function ParseNat(s: string): (r: Option<nat>)
    ensures r.Some? <==> Canonical(s)
  {
    if Canonical(s) then Some(DigitsValue(s)) else None
  }

  lemma {:induction false} NatToStringLeading(n: nat)
    ensures (NatToString(n)[0] == '0') <==> n == 0
  {
    if n >= 10 {
      NatToStringLeading(n / 10);
    }
  }

  lemma {:induction false} DigitsValueSnoc(s: string, c: char)
    requires AllDigits(s) && IsDigit(c)
    ensures AllDigits(s + [c]) && DigitsValue(s + [c]) == DigitsValue(s) * 10 + DigitValue(c)
  {
    assert (s + [c])[..|s|] == s;
  }

  /** `NatToString` yields canonical text whose value is the number itself. */
  lemma {:induction false} NatToStringValue(n: nat)
    ensures Canonical(NatToString(n))
    ensures DigitsValue(NatToString(n)) == n
  {
    NatToStringLeading(n);
    if n >= 10 {
      NatToStringValue(n / 10);
      DigitsValueSnoc(NatToString(n / 10), DigitChar(n % 10));
    }
  }

  lemma {:induction false} DigitsValuePositive(s: string)
    requires |s| >= 1 && AllDigits(s) && s[0] != '0'
    ensures DigitsValue(s) >= 1
  {
    if |s| > 1 {
      DigitsValuePositive(s[..|s| - 1]);
    }
  }

  /** Canonical text is exactly the rendering of its own value. */
  lemma {:induction false} NatToStringOfDigits(s: string)
    requires Canonical(s)
    ensures NatToString(DigitsValue(s)) == s
  {
    if |s| > 1 {
      var t := s[..|s| - 1];
      assert s == t + [s[|s| - 1]];
      assert t[0] == s[0];
      DigitsValuePositive(t);
      NatToStringOfDigits(t);
      var n := DigitsValue(s);
      assert n / 10 == DigitsValue(t) && n % 10 == DigitValue(s[|s| - 1]);
    }
  }

  /** Parsing and rendering are inverse: `ParseNat(s) == Some(n)` exactly when `s` is the text of `n`. */
  lemma ParseNatIff(s: string, n: nat)
    ensures ParseNat(s) == Some(n) <==> NatToString(n) == s
  {
    NatToStringValue(n);
    if ParseNat(s) == Some(n) {
      NatToStringOfDigits(s);
    }
  }

  lemma NatToStringInjective(m: nat, n: nat)
    requires NatToString(m) == NatToString(n)
    ensures m == n
  {
    NatToStringValue(m);
    NatToStringValue(n);
  }
}
