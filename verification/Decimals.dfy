/** Decimal numerals, as the programs print them. */
module Decimals {
  predicate Digits(s: string) {
    forall i :: 0 <= i < |s| ==> '0' <= s[i] <= '9'
  }

  /** The number a numeral stands for. */
  function Decimal(s: string): nat
    requires Digits(s)
  {
    if s == "" then 0 else 10 * Decimal(s[..|s| - 1]) + (s[|s| - 1] as int - '0' as int)
  }

  /** The numeral without leading zeros: it can be read back, so no two numbers share one. */
  function Number(n: nat): (r: string)
    ensures |r| > 0 && Digits(r) && Decimal(r) == n
  {
    var digit := ['0' + (n % 10) as char];
    if n < 10 then digit else Number(n / 10) + digit
  }

  function Pow10(n: nat): (p: nat)
    ensures p >= 1
  {
    if n == 0 then 1 else 10 * Pow10(n - 1)
  }

  lemma {:induction false} NumberLength(n: nat, width: nat)
    requires n < Pow10(width) && width > 0
    ensures |Number(n)| <= width
  {
    if n >= 10 {
      assert Pow10(1) == 10;
      NumberLength(n / 10, width - 1);
    }
  }

  /** QByteArray::rightJustified, and the width of a printf conversion. */
  function RightJustified(s: string, width: nat, fill: char): (r: string)
    ensures |s| <= width ==> |r| == width
    ensures |s| >= width ==> r == s
  {
    if |s| < width then seq(width - |s|, _ => fill) + s else s
  }
}
