/** Unsigned decimal text, as `to_string` prints it and as the server and the URI parser read it back. */
module Decimals {
  import opened Foundations

  const ZERO: byte := 0x30
  const NINE: byte := 0x39

  predicate IsDigit(b: byte) { ZERO <= b <= NINE }

  predicate OnlyDigits(text: Bytes) { forall i | 0 <= i < |text| :: IsDigit(text[i]) }

  predicate AllDigits(text: Bytes) { text != [] && OnlyDigits(text) }

  function Digits(n: nat): (text: Bytes)
    ensures AllDigits(text)
    ensures n > 0 ==> text[0] != ZERO
  {
    if n < 10 then [ZERO + n] else Digits(n / 10) + [ZERO + n % 10]
  }

  function ValueOf(text: Bytes): nat
    requires OnlyDigits(text)
  {
    if text == [] then 0
    else
      assert IsDigit(text[|text| - 1]);
      10 * ValueOf(text[..|text| - 1]) + (text[|text| - 1] - ZERO)
  }

  lemma {:induction false} LastDigit(text: Bytes)
    requires AllDigits(text)
    ensures var (init, last) := (text[..|text| - 1], text[|text| - 1]);
            && IsDigit(last) && OnlyDigits(init) && text == init + [last]
            && ValueOf(text) == 10 * ValueOf(init) + (last - ZERO)
  {
  }

  function ParseDecimal(text: Bytes): Option<nat> {
    if AllDigits(text) then Some(ValueOf(text)) else None
  }

  lemma {:induction false} PrintedParses(n: nat)
    ensures ParseDecimal(Digits(n)) == Some(n)
  {
    LastDigit(Digits(n));
    if n >= 10 {
      PrintedParses(n / 10);
      assert Digits(n)[..|Digits(n)| - 1] == Digits(n / 10) && Digits(n)[|Digits(n)| - 1] == ZERO + n % 10;
    }
  }

  /** Exactly the texts with no superfluous leading zero are what printing produces. */
  lemma {:induction false} ParsedPrints(text: Bytes)
    requires AllDigits(text)
    ensures Digits(ValueOf(text)) == text <==> text == [ZERO] || text[0] != ZERO
  {
    var n := ValueOf(text);
    PrintedParses(n);
    LastDigit(text);
    if |text| > 1 && text[0] != ZERO {
      var init := text[..|text| - 1];
      ParsedPrints(init);
      NoLeadingZeroIsPositive(init);
      assert n / 10 == ValueOf(init) && n % 10 == text[|text| - 1] - ZERO;
    }
  }

  lemma {:induction false} NoLeadingZeroIsPositive(text: Bytes)
    requires AllDigits(text) && text[0] != ZERO
    ensures ValueOf(text) > 0
  {
    LastDigit(text);
    if |text| > 1 {
      NoLeadingZeroIsPositive(text[..|text| - 1]);
    }
  }

  function Pow10(n: nat): nat { if n == 0 then 1 else 10 * Pow10(n - 1) }

  lemma {:induction false} DigitsFit(n: nat, width: nat)
    requires width > 0 && n < Pow10(width)
    ensures |Digits(n)| <= width
  {
    if n >= 10 {
      assert Pow10(width) == 10 * Pow10(width - 1);
      DigitsFit(n / 10, width - 1);
    }
  }
}
