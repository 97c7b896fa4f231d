/** The unsigned decimals on the command line of the companion target: exactly the
    numerals that fit in 64 bits, and everything the launcher writes. */
module CompanionOptions {
  import opened Wrappers

  predicate IsDigit(c: char) {
    '0' <= c <= '9'
  }

  predicate AllDigits(text: string) {
    forall k | 0 <= k < |text| :: IsDigit(text[k])
  }

  // The number that a string of digits denotes, of any size.
  function Numeral(text: string): nat
    requires AllDigits(text)
  {
    if text == "" then 0 else 10 * Numeral(text[..|text| - 1]) + (text[|text| - 1] - '0') as nat
  }

  // Further digits never make a number smaller.
  lemma {:induction false} NumeralGrows(text: string, k: nat)
    requires AllDigits(text) && k <= |text|
    ensures Numeral(text[..k]) <= Numeral(text)
  {
    if k == |text| {
      assert text[..k] == text;
    } else {
      NumeralGrows(text[..|text| - 1], k);
      assert text[..|text| - 1][..k] == text[..k];
    }
  }

  // Accepted are the nonempty digit strings whose number fits, with leading zeros
  // or without; the check before each digit is exact.
  method ParseUnsignedDecimal(text: string) returns (r: Option<UInt64>)
    ensures r.Some? <==> text != "" && AllDigits(text) && Numeral(text) <= UINT64_MAX
    ensures r.Some? ==> AllDigits(text) && r.value == Numeral(text)
  {
    if text == "" {
      return None;
    }
    var value: UInt64 := 0;
    for k := 0 to |text|
      invariant AllDigits(text[..k]) && value == Numeral(text[..k])
    {
      if !IsDigit(text[k]) {
        return None;
      }
      var digit := (text[k] - '0') as int;
      assert text[..k + 1][..k] == text[..k];
      if value > (UINT64_MAX - digit) / 10 {
        if AllDigits(text) {
          NumeralGrows(text, k + 1);
        }
        return None;
      }
      value := value * 10 + digit;
    }
    assert text[..|text|] == text;
    return Some(value);
  }

  // The shortest numeral of a number, as the launcher writes it.
  function Decimal(n: nat): (text: string)
    ensures text != "" && AllDigits(text)
  {
    var digit := ['0' + (n % 10) as char];
    if n < 10 then digit else Decimal(n / 10) + digit
  }

  lemma {:induction false} NumeralOfDecimal(n: nat)
    ensures Numeral(Decimal(n)) == n
  {
    var text := Decimal(n);
    if n < 10 {
      assert text[..|text| - 1] == "";
    } else {
      NumeralOfDecimal(n / 10);
      assert text[..|text| - 1] == Decimal(n / 10);
    }
  }

  // What the launcher writes is read back as the same number.
  method LaunchRoundTrip(n: UInt64) returns (r: Option<UInt64>)
    ensures r == Some(n)
  {
    NumeralOfDecimal(n);
    r := ParseUnsignedDecimal(Decimal(n));
  }
}
