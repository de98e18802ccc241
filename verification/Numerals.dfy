/** Decimal numerals: a number written out and read again. */
module Numerals {
  import opened Options
  import opened Text

  function Decimal(n: nat): (s: string)
    ensures s != ""
  {
    var last := ['0' + (n % 10) as char];
    if n < 10 then last else Decimal(n / 10) + last
  }

  /** The numeral a reader expects. */
  lemma DecimalIs(n: nat)
    ensures n < 10 ==> Decimal(n) == ["0123456789"[n]]
    ensures n >= 10 ==> Decimal(n) == Decimal(n / 10) + Decimal(n % 10)
  {}

  /** Digits only, and their value is the number. */
  lemma {:induction false} ValueOfDecimal(n: nat)
    ensures Digits(Decimal(n)) && Value(Decimal(n)) == n
  {
    var s := Decimal(n);
    if n >= 10 {
      ValueOfDecimal(n / 10);
      assert s[..|s| - 1] == Decimal(n / 10);
    } else {
      assert s[..0] == "";
    }
  }

  lemma AtoiOfDecimal(n: nat)
    requires n <= MAX_INT
    ensures Atoi(Decimal(n)) == Some(n)
  {
    ValueOfDecimal(n);
    hide Value;
    assert '0' <= Decimal(n)[0] <= '9';
  }

  /** A number in digits, of any size. */
  function Numeral(s: string): Option<nat> {
    if Digits(s) then Some(Value(s)) else None
  }

  /** No numeral holds a character that is not a digit. */
  lemma NotInDecimal(n: nat, c: char)
    requires c < '0' || '9' < c
    ensures c !in Decimal(n)
  {
    ValueOfDecimal(n);
    hide Value, Decimal;
  }
}
