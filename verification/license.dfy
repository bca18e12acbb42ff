/** The buyer's licence level, derived from the free-text licence number. */
module License {
  import opened Common

  predicate IsDigit(c: char) {
    '0' <= c <= '9'
  }

  predicate AllDigits(s: string) {
    forall i :: 0 <= i < |s| ==> IsDigit(s[i])
  }

  /** The value of a string of decimal digits, most significant first. */
  function DigitsValue(s: string): nat
    requires AllDigits(s)
    decreases |s|
  {
    if |s| == 0 then 0
    else DigitsValue(s[..|s| - 1]) * 10 + (s[|s| - 1] as int - '0' as int)
  }

  /** `Number(text)` restricted to integers: an optional sign and one or more
      decimal digits; anything else is not a number (`NaN`). */
  function ParseInt(s: string): Option<int> {
    if |s| > 0 && (s[0] == '-' || s[0] == '+') then
      if |s| > 1 && AllDigits(s[1..]) then
        var v: int := DigitsValue(s[1..]);
        Some(if s[0] == '-' then -v else v)
      else None
    else if |s| > 0 && AllDigits(s) then Some(DigitsValue(s))
    else None
  }

  /** Decimal text of a natural number, without leading zeros. */
  function ShowNat(n: nat): (s: string)
    ensures |s| > 0 && AllDigits(s)
  {
    var d := [(n % 10 + '0' as int) as char];
    if n < 10 then d else ShowNat(n / 10) + d
  }

  function ShowInt(n: int): string {
    if n < 0 then "-" + ShowNat(-n) else ShowNat(n)
  }

  lemma {:induction false} DigitsOfShowNat(n: nat)
    ensures DigitsValue(ShowNat(n)) == n
  {
    var s := ShowNat(n);
    if n >= 10 {
      DigitsOfShowNat(n / 10);
      assert s[..|s| - 1] == ShowNat(n / 10);
    }
  }

  /** Printing an integer and parsing it back gives the integer. */
  lemma ParseShowInt(n: int)
    ensures ParseInt(ShowInt(n)) == Some(n)
  {
    if n < 0 {
      DigitsOfShowNat(-n);
      assert ShowInt(n)[1..] == ShowNat(-n);
    } else {
      DigitsOfShowNat(n);
    }
  }

  /** The customer's level: the number the licence text denotes, or 0 when the
      field is null, empty or not a number. Negative numbers pass unchanged. */
  function CustomerLevel(licenseNumber: Option<string>): int {
    match licenseNumber
    case None => 0
    case Some(text) =>
      if text == "" then 0
      else match ParseInt(text)
        case Some(n) => n
        case None => 0
  }

  /** A licence number written as the decimal text of `n` gives level `n`,
      whatever the sign of `n`. */
  lemma LevelOfNumber(n: int)
    ensures CustomerLevel(Some(ShowInt(n))) == n
  {
    ParseShowInt(n);
  }

  /** A run of zeros is worth 0. */
  lemma {:induction false} ZerosValue(z: string)
    requires forall i :: 0 <= i < |z| ==> z[i] == '0'
    ensures AllDigits(z) && DigitsValue(z) == 0
    decreases |z|
  {
    if |z| > 0 {
      ZerosValue(z[..|z| - 1]);
    }
  }

  /** Leading zeros do not change the value of a numeral. */
  lemma {:induction false} LeadingZeros(z: string, s: string)
    requires forall i :: 0 <= i < |z| ==> z[i] == '0'
    requires AllDigits(s)
    ensures AllDigits(z + s) && DigitsValue(z + s) == DigitsValue(s)
    decreases |s|
  {
    ZerosValue(z);
    if |s| == 0 {
      assert z + s == z;
    } else {
      LeadingZeros(z, s[..|s| - 1]);
      assert (z + s)[..|z + s| - 1] == z + s[..|s| - 1];
    }
  }

  /** Any numeral `Number()` reads as an integer: an optional `+` or `-`,
      any number of leading zeros, then the digits of `n`. */
  lemma LevelOfNumeral(sign: string, z: string, n: nat)
    requires sign == "" || sign == "+" || sign == "-"
    requires forall i :: 0 <= i < |z| ==> z[i] == '0'
    ensures CustomerLevel(Some(sign + z + ShowNat(n))) == if sign == "-" then -(n as int) else n
  {
    var digits := z + ShowNat(n);
    LeadingZeros(z, ShowNat(n));
    DigitsOfShowNat(n);
    assert sign + z + ShowNat(n) == sign + digits;
    if sign != "" {
      assert (sign + digits)[1..] == digits;
    } else {
      assert sign + digits == digits;
      assert IsDigit(digits[0]);
    }
  }

  /** No licence, an empty one, a bare sign, or one with any character that
      is neither a digit nor a leading sign gives level 0. */
  lemma LevelOfNonNumber(licenseNumber: Option<string>)
    requires licenseNumber.Some? ==>
      || licenseNumber.value == ""
      || licenseNumber.value == "+"
      || licenseNumber.value == "-"
      || exists i :: 0 <= i < |licenseNumber.value| && !IsDigit(licenseNumber.value[i])
                     && !(i == 0 && licenseNumber.value[i] in "+-")
    ensures CustomerLevel(licenseNumber) == 0
  {
  }
}
