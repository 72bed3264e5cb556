/** Decimal numerals in ASCII. */
module Decimals {
  import opened Utf8

  /** `n` written in base ten, without leading zeros. */
  function Decimal(n: nat): (s: seq<byte>)
    ensures s != []
  {
    if n < 10 then ['0' as int + n] else Decimal(n / 10) + ['0' as int + n % 10]
  }

  lemma {:induction false} DecimalDigits(n: nat)
    ensures forall i :: 0 <= i < |Decimal(n)| ==> '0' as int <= Decimal(n)[i] <= '9' as int
  {
    if n >= 10 { DecimalDigits(n / 10); }
  }
}
