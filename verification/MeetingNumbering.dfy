/** Generated meeting names: "meeting-" and the running number, padded with zeros to six digits. */
module MeetingNumbering {

  function Digit(d: nat): char
    requires d < 10
  {
    ['0', '1', '2', '3', '4', '5', '6', '7', '8', '9'][d]
  }

  function Decimal(n: nat): string {
    if n < 10 then [Digit(n)] else Decimal(n / 10) + [Digit(n % 10)]
  }

  function Padded(digits: string): string
    decreases 6 - |digits|
  {
    if |digits| >= 6 then digits else Padded("0" + digits)
  }

  function MeetingName(n: nat): string { "meeting-" + Padded(Decimal(n)) }

  function DigitValue(c: char): int { c as int - '0' as int }

  function ValueOf(digits: string): int {
    if digits == "" then 0 else ValueOf(digits[..|digits| - 1]) * 10 + DigitValue(digits[|digits| - 1])
  }

  lemma {:induction false} DecimalValue(n: nat)
    ensures ValueOf(Decimal(n)) == n
  {
    if n < 10 {
      assert Decimal(n)[..0] == "";
    } else {
      DecimalValue(n / 10);
      assert Decimal(n)[..|Decimal(n)| - 1] == Decimal(n / 10);
    }
  }

  lemma {:induction false} LeadingZero(digits: string)
    ensures ValueOf("0" + digits) == ValueOf(digits)
  {
    if digits == "" {
      assert ("0" + digits)[..0] == "";
    } else {
      LeadingZero(digits[..|digits| - 1]);
      assert ("0" + digits)[..|digits|] == "0" + digits[..|digits| - 1];
    }
  }

  lemma {:induction false} PaddedValue(digits: string)
    ensures ValueOf(Padded(digits)) == ValueOf(digits)
    decreases 6 - |digits|
  {
    if |digits| < 6 {
      PaddedValue("0" + digits);
      LeadingZero(digits);
    }
  }

  /** Different numbers give different names. */
  lemma MeetingNameInjective(m: nat, n: nat)
    requires MeetingName(m) == MeetingName(n)
    ensures m == n
  {
    assert MeetingName(m)[8..] == Padded(Decimal(m));
    assert MeetingName(n)[8..] == Padded(Decimal(n));
    DecimalValue(m);
    DecimalValue(n);
    PaddedValue(Decimal(m));
    PaddedValue(Decimal(n));
  }
}
