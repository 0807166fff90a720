/** Whole numbers written in decimal. */
module Numerals {

  predicate IsDigit(c: char) {
    '0' <= c <= '9'
  }

  function Digit(n: nat): char
    requires n < 10
  {
    ('0' as int + n) as char
  }

  function Decimal(n: nat): string {
    if n < 10 then [Digit(n)] else Decimal(n / 10) + [Digit(n % 10)]
  }

  lemma {:induction false} DecimalIsDigits(n: nat)
    ensures Decimal(n) != "" && forall c <- Decimal(n) :: IsDigit(c)
  {
    if n >= 10 {
      DecimalIsDigits(n / 10);
    }
  }

  predicate StartsWithDigit(text: string) {
    text != "" && IsDigit(text[0])
  }

  /** Reads digits on top of what was read already, and returns what follows them. */
  function ReadDigits(text: string, before: nat): (nat, string) {
    if StartsWithDigit(text) then ReadDigits(text[1..], before * 10 + (text[0] as int - '0' as int))
    else (before, text)
  }

  /** Reading back what was written leaves what followed it. */
  lemma {:induction false} ReadInvertsDecimal(n: nat, rest: string)
    ensures ReadDigits(Decimal(n) + rest, 0) == ReadDigits(rest, n)
  {
    if n < 10 {
      assert (Decimal(n) + rest)[1..] == rest;
    } else {
      var last := [Digit(n % 10)];
      assert Decimal(n) + rest == Decimal(n / 10) + (last + rest);
      ReadInvertsDecimal(n / 10, last + rest);
      assert (last + rest)[1..] == rest;
    }
  }
}
