/** Decimal text: what sprintf("%d"), Integer.toString and atoi do. */
module Decimal {
  function Digit(d: nat): char
    requires d < 10
  {
    "0123456789"[d]
  }

  predicate IsDigit(c: char) {
    '0' <= c <= '9'
  }

  function DigitValue(c: char): nat
    requires IsDigit(c)
  {
    c as int - '0' as int
  }

  function NatText(n: nat): string {
    if n < 10 then [Digit(n)] else NatText(n / 10) + [Digit(n % 10)]
  }

  function Text(n: int): string {
    if n < 0 then "-" + NatText(-n) else NatText(n)
  }

  /** The value of the leading digits, after those already read into `acc`. */
  function Leading(s: string, acc: nat): nat {
    if s == [] || !IsDigit(s[0]) then acc else Leading(s[1..], 10 * acc + DigitValue(s[0]))
  }

  function Atoi(s: string): int {
    if s != [] && s[0] == '-' then 0 - Leading(s[1..], 0) else Leading(s, 0)
  }

  lemma {:induction false} NatTextDigits(n: nat)
    ensures NatText(n) != []
    ensures forall c :: c in NatText(n) ==> IsDigit(c)
  {
    if n >= 10 {
      NatTextDigits(n / 10);
    }
  }

  lemma {:induction false} LeadingConcat(a: string, b: string, acc: nat)
    requires forall c :: c in a ==> IsDigit(c)
    ensures Leading(a + b, acc) == Leading(b, Leading(a, acc))
  {
    if a == [] {
      assert a + b == b;
    } else {
      assert (a + b)[1..] == a[1..] + b;
      LeadingConcat(a[1..], b, 10 * acc + DigitValue(a[0]));
    }
  }

  lemma {:induction false} NatTextValue(n: nat)
    ensures Leading(NatText(n), 0) == n
  {
    if n >= 10 {
      NatTextDigits(n / 10);
      LeadingConcat(NatText(n / 10), [Digit(n % 10)], 0);
      NatTextValue(n / 10);
      assert [Digit(n % 10)][1..] == [];
    }
  }

  /** Reading back a printed number, whatever follows its terminator. */
  lemma AtoiText(n: int, rest: string)
    requires rest == [] || !IsDigit(rest[0])
    ensures Atoi(Text(n) + rest) == n
  {
    var m := if n < 0 then -n else n;
    NatTextDigits(m);
    NatTextValue(m);
    LeadingConcat(NatText(m), rest, 0);
    if n < 0 {
      assert (Text(n) + rest)[1..] == NatText(m) + rest;
    }
  }

  lemma TextInjective(a: int, b: int)
    requires Text(a) == Text(b)
    ensures a == b
  {
    AtoiText(a, []);
    AtoiText(b, []);
    assert Text(a) + [] == Text(b) + [];
  }
}
