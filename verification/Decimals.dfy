/** Numbers as decimal text. */
module Decimals {
  function Digit(d: nat): char
    requires d < 10
  {
    ['0', '1', '2', '3', '4', '5', '6', '7', '8', '9'][d]
  }

  function Decimal(n: nat): (s: string)
    ensures s != ""
  {
    if n < 10 then [Digit(n)] else Decimal(n / 10) + [Digit(n % 10)]
  }

  predicate IsDigit(c: char)
  {
    '0' <= c <= '9'
  }

  /** `strtoull` on digits: it stops at the first character that is none. */
  function ParseDigits(s: string, value: nat): nat
  {
    if s == [] || !IsDigit(s[0]) then value else ParseDigits(s[1..], 10 * value + (s[0] as nat - '0' as nat))
  }

  lemma {:induction false} ParseSnoc(s: string, d: nat, value: nat)
    requires d < 10 && forall i :: 0 <= i < |s| ==> IsDigit(s[i])
    ensures ParseDigits(s + [Digit(d)], value) == 10 * ParseDigits(s, value) + d
  {
    if s == [] {
      assert (s + [Digit(d)])[1..] == [];
    } else {
      assert (s + [Digit(d)])[1..] == s[1..] + [Digit(d)];
      ParseSnoc(s[1..], d, 10 * value + (s[0] as nat - '0' as nat));
    }
  }

  lemma {:induction false} DecimalParses(n: nat)
    ensures ParseDigits(Decimal(n), 0) == n && forall i :: 0 <= i < |Decimal(n)| ==> IsDigit(Decimal(n)[i])
  {
    if n < 10 {
      assert [Digit(n)][1..] == [];
    } else {
      hide ParseDigits;
      DecimalParses(n / 10);
      ParseSnoc(Decimal(n / 10), n % 10, 0);
      LastDigit(Decimal(n / 10), n % 10);
    }
  }

  lemma LastDigit(s: string, d: nat)
    requires d < 10 && forall i :: 0 <= i < |s| ==> IsDigit(s[i])
    ensures forall i :: 0 <= i < |s + [Digit(d)]| ==> IsDigit((s + [Digit(d)])[i])
  {
    assert IsDigit(Digit(d));
  }

  /** A number has one text. */
  lemma DecimalInjective(a: nat, b: nat)
    requires Decimal(a) == Decimal(b)
    ensures a == b
  {
    hide Decimal, ParseDigits;
    DecimalParses(a);
    DecimalParses(b);
  }
}
