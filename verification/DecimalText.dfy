/** Natural numbers in decimal, as strconv, json and TXT escapes write them. */
module DecimalText {
  import opened Bytes

  function Decimal(n: nat): (text: Str)
    ensures text != []
  {
    if n < 10 then [48 + n] else Decimal(n / 10) + [48 + n % 10]
  }

  predicate Digit(c: byte) {
    48 <= c <= 57
  }

  predicate DigitChar(c: char) {
    '0' <= c <= '9'
  }

  function DecimalValue(text: Str): nat
    requires forall i :: 0 <= i < |text| ==> Digit(text[i])
  {
    if text == [] then 0
    else
      var last := text[|text| - 1];
      assert Digit(last);
      DecimalValue(text[..|text| - 1]) * 10 + (last - 48)
  }

  lemma {:induction false} DecimalRoundTrip(n: nat)
    ensures var text := Decimal(n);
            && (forall i :: 0 <= i < |text| ==> Digit(text[i]))
            && DecimalValue(text) == n
            && (text[0] == 48 <==> n == 0)
            && (n == 0 ==> |text| == 1)
  {
    if n >= 10 {
      DecimalRoundTrip(n / 10);
      assert Decimal(n)[..|Decimal(n)| - 1] == Decimal(n / 10);
    }
  }
}
