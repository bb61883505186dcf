/** Reading decimal numbers back. */
module Decimals {
  import opened Text

  function DecimalValue(s: string): nat
    requires AllDigits(s)
  {
    if s == "" then 0 else DecimalValue(s[..|s| - 1]) * 10 + (s[|s| - 1] as int - '0' as int)
  }

  // n is written with the digits of n, the first of them not a zero unless it is the only one.
  lemma {:induction false} ItoaIsDecimal(n: nat)
    ensures DecimalValue(Itoa(n)) == n
    ensures Itoa(n)[0] == '0' ==> Itoa(n) == "0"
  {
    if n >= 10 {
      ItoaIsDecimal(n / 10);
      assert Itoa(n)[..|Itoa(n)| - 1] == Itoa(n / 10);
    } else {
      assert Itoa(n)[..0] == "";
    }
  }
}
