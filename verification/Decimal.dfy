/** Decimal digits, as `fmt` and `strconv` write them. */
module Decimal {

  function Digit(d: nat): (c: char)
    requires d <= 9
    ensures c == "0123456789"[d]
  {
    '0' + d as char
  }

  lemma DigitIsOwn(c: nat, d: nat)
    requires c <= 9 && d <= 9 && Digit(c) == Digit(d)
    ensures c == d
  {
    assert Digit(c) as int == '0' as int + c && Digit(d) as int == '0' as int + d;
  }

  predicate IsNumeral(text: string) {
    text != [] && forall c <- text :: '0' <= c <= '9'
  }

  /** The number a row of digits stands for. */
  function Numeral(text: string): int {
    if text == [] then 0 else Numeral(text[..|text| - 1]) * 10 + (text[|text| - 1] as int - '0' as int)
  }
}
