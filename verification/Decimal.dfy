/** Decimal text of natural numbers. */
module Decimal {
  import opened Lex
  import opened Options

  const ZERO: int := 48

  predicate IsDigit(b: Byte) { ZERO <= b <= ZERO + 9 }

  function Digits(n: nat): (r: Bytes)
    ensures |r| > 0 && forall i :: 0 <= i < |r| ==> IsDigit(r[i])
  {
    if n < 10 then [ZERO + n] else Digits(n / 10) + [ZERO + n % 10]
  }

  function ValueOf(text: Bytes): nat
    requires forall i :: 0 <= i < |text| ==> IsDigit(text[i])
  {
    if text == [] then 0
    else
      var last := |text| - 1;
      assert IsDigit(text[last]);
      ValueOf(text[..last]) * 10 + (text[last] - ZERO)
  }

  function Parse(text: Bytes): Option<nat> {
    if text != [] && forall i :: 0 <= i < |text| ==> IsDigit(text[i]) then Some(ValueOf(text)) else None
  }

  lemma {:induction false} ParseDigits(n: nat)
    ensures Parse(Digits(n)) == Some(n)
  {
    if n >= 10 {
      ParseDigits(n / 10);
      var text := Digits(n);
      assert text[..|text| - 1] == Digits(n / 10);
    } else {
      assert ValueOf(Digits(n)[..0]) == 0;
    }
  }

  lemma DigitsInjective(m: nat, n: nat)
    requires Digits(m) == Digits(n)
    ensures m == n
  {
    ParseDigits(m);
    ParseDigits(n);
  }
}
