/** Decimal spellings of integers, as Python's json.dumps and C's %d write them. */
module Decimals {
  import opened JsonSpec

  function Digit(n: nat): char
    requires n < 10
  {
    ('0' as int + n) as char
  }

  function Decimal(n: nat): string {
    if n < 10 then [Digit(n)] else Decimal(n / 10) + [Digit(n % 10)]
  }

  function PrintInt(n: int): string { if n < 0 then ['-'] + Decimal(-n) else Decimal(n) }

  predicate AllDigits(t: string) { forall i :: 0 <= i < |t| ==> IsDigit(t[i]) }

  /** Reading the digits back gives the number. */
  lemma {:induction false} DecimalValue(n: nat)
    ensures Decimal(n) != [] && AllDigits(Decimal(n)) && DigitsValue(Decimal(n)) == n
  {
    if n < 10 {
      assert [Digit(n)][..0] == [];
    } else {
      DecimalValue(n / 10);
      var d := Decimal(n / 10);
      assert Decimal(n)[..|Decimal(n)| - 1] == d;
    }
  }

  /** A minus sign or a digit, then digits only. */
  lemma PrintIntShape(n: int)
    ensures var p := PrintInt(n);
            && p != [] && (p[0] == '-' || IsDigit(p[0]))
            && AllDigits(if p[0] == '-' then p[1..] else p)
  {
    DecimalValue(if n < 0 then -n else n);
    hide Decimal;
    if n < 0 {
      assert PrintInt(n)[1..] == Decimal(-n);
    } else {
      assert IsDigit(PrintInt(n)[0]);
    }
  }

  lemma PrintIntInjective(m: int, n: int)
    requires PrintInt(m) == PrintInt(n)
    ensures m == n
  {
    DecimalValue(if m < 0 then -m else m);
    DecimalValue(if n < 0 then -n else n);
    hide Decimal, DigitsValue;
    assert m >= 0 ==> IsDigit(PrintInt(m)[0]);
    assert n >= 0 ==> IsDigit(PrintInt(n)[0]);
    assert m < 0 ==> PrintInt(m)[1..] == Decimal(-m);
    assert n < 0 ==> PrintInt(n)[1..] == Decimal(-n);
  }
}
