/** Texts of bytes and of numbers, which several components write and read. A byte is a
    `char` below 256. */
module Texts {
  import opened Wrappers

  predicate IsBytes(s: string) { forall i :: 0 <= i < |s| ==> s[i] as int < 256 }

  function DigitText(n: nat): char
    requires n < 10
  {
    ('0' as int + n) as char
  }

  function DecimalText(n: nat): string {
    if n < 10 then [DigitText(n)] else DecimalText(n / 10) + [DigitText(n % 10)]
  }

  function IntText(n: int): string { if n < 0 then "-" + DecimalText(-n) else DecimalText(n) }

  const HEX_DIGITS: string := "0123456789abcdef"

  function HexValue(c: char): Option<nat> {
    if '0' <= c <= '9' then Some(c as int - '0' as int)
    else if 'A' <= c <= 'F' then Some(c as int - 'A' as int + 10)
    else if 'a' <= c <= 'f' then Some(c as int - 'a' as int + 10)
    else None
  }

  lemma HexDigitReads(v: nat)
    requires v < 16
    ensures HexValue(HEX_DIGITS[v]) == Some(v) && HEX_DIGITS[v] as int < 256
    ensures HEX_DIGITS[v] !in " \t\n\r-+:"
    ensures HEX_DIGITS[v] as int == if v < 10 then 48 + v else 87 + v
    ensures v >= 10 ==> HexValue((55 + v) as char) == Some(v)
  {
  }
}
