/** Decimal numerals: how numbers are printed, and which texts read as which number. */
module Numerals {
  import opened Options

  function Digit(n: nat): char
    requires n < 10
  {
    "0123456789"[n]
  }

  function Decimal(n: nat): string {
    if n < 10 then [Digit(n)] else Decimal(n / 10) + [Digit(n % 10)]
  }

  lemma {:induction false} DecimalIsDigits(n: nat)
    ensures Decimal(n) != "" && forall i :: 0 <= i < |Decimal(n)| ==> '0' <= Decimal(n)[i] <= '9'
  {
    if n >= 10 {
      DecimalIsDigits(n / 10);
    }
  }

  /** The value of a run of decimal digits, None if there is any other character. */
  function Digits(s: string): Option<nat> {
    if s == "" then Some(0) else
      match Digits(s[..|s| - 1]) {
        case None => None
        case Some(n) =>
          var c := s[|s| - 1];
          if '0' <= c <= '9' then Some(10 * n + (c as int - '0' as int)) else None
      }
  }

  // ---------------------------------------------------------------- digits are numerals

  function Zeros(z: nat): string {
    if z == 0 then "" else Zeros(z - 1) + "0"
  }

  /** s is the numeral of n, zeros in front allowed. */
  ghost predicate IsNumeral(s: string, n: nat) {
    exists z: nat :: s == Zeros(z) + Decimal(n)
  }

  lemma DigitsStep(p: string, c: char)
    ensures Digits(p + [c]) == match Digits(p)
      case None => None
      case Some(n) => if '0' <= c <= '9' then Some(10 * n + (c as int - '0' as int)) else None
  {
    assert (p + [c])[..|p|] == p;
  }

  lemma DigitOfChar(c: char)
    requires '0' <= c <= '9'
    ensures Digit(c as int - '0' as int) == c
  {
  }

  lemma {:induction false} DigitsOfZeros(z: nat)
    ensures Digits(Zeros(z)) == Some(0)
  {
    if z > 0 {
      DigitsOfZeros(z - 1);
      DigitsStep(Zeros(z - 1), '0');
    }
  }

  lemma CharOfDigit(d: nat)
    requires d < 10
    ensures '0' <= Digit(d) <= '9' && Digit(d) as int - '0' as int == d
  {
  }

  lemma NoDigits()
    ensures Digits("") == Some(0)
  {
  }

  lemma {:induction false} DigitsOfNumeral(z: nat, n: nat)
    ensures Digits(Zeros(z) + Decimal(n)) == Some(n)
  {
    hide Digits, Digit;
    CharOfDigit(n % 10);
    if n < 10 {
      DigitsOfZeros(z);
      DigitsStep(Zeros(z), Digit(n));
    } else {
      DigitsOfNumeral(z, n / 10);
      var p, c := Zeros(z) + Decimal(n / 10), Digit(n % 10);
      DigitsStep(p, c);
      assert Zeros(z) + Decimal(n) == p + [c];
    }
  }

  lemma {:induction false} DigitsAreNumeral(s: string)
    requires s != "" && Digits(s).Some?
    ensures IsNumeral(s, Digits(s).value)
  {
    var p, c := s[..|s| - 1], s[|s| - 1];
    assert s == p + [c];
    DigitsStep(p, c);
    hide Digits, Digit, Decimal, Zeros, IsNumeral;
    var d := c as int - '0' as int;
    DigitOfChar(c);
    if p == "" {
      NoDigits();
      OneDigit(d);
      assert s == [c];
    } else {
      DigitsAreNumeral(p);
      NumeralGrows(p, Digits(p).value, d);
    }
  }

  lemma NumeralGrows(p: string, m: nat, d: nat)
    requires IsNumeral(p, m) && d < 10
    ensures IsNumeral(p + [Digit(d)], 10 * m + d)
  {
    var z: nat :| p == Zeros(z) + Decimal(m);
    OneDigitMore(z, m, d);
    hide Digit, Decimal, Zeros;
    if m == 0 {
      assert p + [Digit(d)] == Zeros(z + 1) + Decimal(10 * m + d);
    } else {
      assert p + [Digit(d)] == Zeros(z) + Decimal(10 * m + d);
    }
  }

  lemma OneDigit(d: nat)
    requires d < 10
    ensures IsNumeral([Digit(d)], d)
  {
    assert [Digit(d)] == Zeros(0) + Decimal(d);
  }

  lemma OneDigitMore(z: nat, m: nat, d: nat)
    requires d < 10
    ensures Zeros(z) + Decimal(m) + [Digit(d)] == if m == 0 then Zeros(z + 1) + Decimal(d) else Zeros(z) + Decimal(10 * m + d)
  {
    if m == 0 {
      assert Zeros(z) + "0" + [Digit(d)] == Zeros(z + 1) + [Digit(d)];
    } else {
      assert (10 * m + d) / 10 == m && (10 * m + d) % 10 == d;
      assert Decimal(10 * m + d) == Decimal(m) + [Digit(d)];
    }
  }

  /** A text of digits has the value whose numeral it is, and no other text has one. */
  lemma DigitsIff(s: string, n: nat)
    requires s != ""
    ensures Digits(s) == Some(n) <==> IsNumeral(s, n)
  {
    if Digits(s) == Some(n) {
      DigitsAreNumeral(s);
    }
    if IsNumeral(s, n) {
      var z: nat :| s == Zeros(z) + Decimal(n);
      DigitsOfNumeral(z, n);
    }
  }
}
