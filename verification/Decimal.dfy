/** Decimal text of integers, as `%d` writes it and `strconv.Atoi` reads it. */
module Decimal {
  import opened Prelude

  predicate IsDigit(c: char) {
    '0' <= c <= '9'
  }

  function Digit(d: int): char
    requires 0 <= d < 10
  {
    '0' + d as char
  }

  function DigitValue(c: char): int
    requires IsDigit(c)
  {
    c as int - '0' as int
  }

  function OfNat(n: nat): (text: string)
    ensures text != [] && forall c :: c in text ==> IsDigit(c)
  {
    if n < 10 then [Digit(n)] else OfNat(n / 10) + [Digit(n % 10)]
  }

  function OfInt(n: int): string {
    if n < 0 then "-" + OfNat(-n) else OfNat(n)
  }

  function Value(digits: string): nat
    requires forall c :: c in digits ==> IsDigit(c)
  {
    if digits == [] then 0 else 10 * Value(Init(digits)) + DigitValue(Last(digits))
  }

  lemma {:induction false} ValueOfNat(n: nat)
    ensures Value(OfNat(n)) == n
  {
    if n >= 10 {
      ValueOfNat(n / 10);
      assert Init(OfNat(n)) == OfNat(n / 10);
    } else {
      assert Init([Digit(n)]) == [];
    }
  }

  /** The sign tells the two halves apart. */
  lemma {:induction false} OfIntSign(n: int)
    ensures OfInt(n)[0] == '-' <==> n < 0
  {
    if n >= 0 {
      assert OfInt(n)[0] in OfNat(n);
    }
  }

  lemma {:induction false} OfNatIsInjective(m: nat, n: nat)
    requires OfNat(m) == OfNat(n)
    ensures m == n
  {
    ValueOfNat(m);
    ValueOfNat(n);
    hide OfNat, Value;
  }

  lemma {:induction false} OfIntIsInjective(m: int, n: int)
    requires OfInt(m) == OfInt(n)
    ensures m == n
  {
    OfIntSign(m);
    OfIntSign(n);
    hide OfNat;
    if m < 0 {
      assert OfInt(m)[1..] == OfNat(-m);
      assert OfInt(n)[1..] == OfNat(-n);
      OfNatIsInjective(-m, -n);
    } else {
      OfNatIsInjective(m, n);
    }
  }

  /** The characters a decimal integer is written with. */
  lemma {:induction false} OfIntCharacters(n: int)
    ensures OfInt(n) != [] && forall c :: c in OfInt(n) ==> IsDigit(c) || c == '-'
  {
  }

  const MAX_INT64 := 0x7fff_ffff_ffff_ffff

  /** `strconv.Atoi`: an optional sign, at least one digit, and a value that fits 64 bits. */
  function Atoi(text: string): Option<int> {
    var negative := text != [] && text[0] == '-';
    var digits := if text != [] && (text[0] == '-' || text[0] == '+') then text[1..] else text;
    if digits == [] || exists c :: c in digits && !IsDigit(c) then
      None
    else
      var v: int := if negative then 0 - Value(digits) else Value(digits);
      if -MAX_INT64 - 1 <= v <= MAX_INT64 then Some(v) else None
  }

  /** The digits of a number are its decimal text without the sign. */
  lemma {:induction false} AtoiReadsOfInt(n: int)
    ensures Atoi(OfInt(n)) == if -MAX_INT64 - 1 <= n <= MAX_INT64 then Some(n) else None
  {
    OfIntSign(n);
    var digits := OfNat(if n < 0 then -n else n);
    ValueOfNat(if n < 0 then -n else n);
    if n < 0 {
      assert OfInt(n)[1..] == digits;
    } else {
      assert OfInt(n)[0] in digits;
    }
  }

  function Zeros(k: nat): (text: string)
    ensures |text| == k && forall c :: c in text ==> c == '0'
  {
    seq(k, i => '0')
  }

  lemma {:induction false} ValueOfZeros(k: nat)
    ensures Value(Zeros(k)) == 0
  {
    if k > 0 {
      assert Init(Zeros(k)) == Zeros(k - 1);
      ValueOfZeros(k - 1);
    }
  }

  lemma {:induction false} ValueBehindZeros(k: nat, n: nat)
    ensures Value(Zeros(k) + OfNat(n)) == n
  {
    var text := Zeros(k) + OfNat(n);
    if n >= 10 {
      ValueBehindZeros(k, n / 10);
      assert Init(text) == Zeros(k) + OfNat(n / 10);
    } else {
      assert Init(text) == Zeros(k);
      ValueOfZeros(k);
    }
  }

  /** One more digit behind the decimal text of a number, where no digits stand for zero. */
  lemma {:induction false} OfNatStep(n: nat, d: char)
    requires IsDigit(d)
    ensures OfNat(10 * n + DigitValue(d)) == if n == 0 then [d] else OfNat(n) + [d]
  {
    assert Digit(DigitValue(d)) == d;
  }

  lemma {:induction false} OneZeroMore(k: nat)
    ensures Zeros(k) + OfNat(0) == Zeros(k + 1)
  {
  }

  /** Every nonempty text of digits is the decimal text of its value behind some zeros. */
  lemma {:induction false} DigitsAreZerosAndNumber(digits: string) returns (k: nat)
    requires digits != [] && forall c :: c in digits ==> IsDigit(c)
    ensures digits == Zeros(k) + OfNat(Value(digits))
  {
    hide OfNat, Zeros, IsDigit, DigitValue;
    var front, d := Init(digits), Last(digits);
    assert digits == front + [d] && IsDigit(d);
    OfNatStep(Value(front), d);
    if front == [] {
      k := 0;
      assert Zeros(0) == [];
    } else {
      assert forall c :: c in front ==> c in digits;
      k := DigitsAreZerosAndNumber(front);
      if Value(front) == 0 {
        OneZeroMore(k);
        k := k + 1;
      }
    }
  }

  predicate IsNumeral(digits: string) {
    digits != [] && forall c :: c in digits ==> IsDigit(c)
  }

  const SIGNS: seq<string> := ["", "+", "-"]

  function Signed(sign: string, n: nat): int {
    if sign == "-" then 0 - n else n
  }

  predicate FitsInt64(n: int) {
    -0x8000_0000_0000_0000 <= n <= 0x7fff_ffff_ffff_ffff
  }

  lemma {:induction false} AtoiOfNumeral(sign: string, digits: string)
    requires sign in SIGNS && IsNumeral(digits)
    ensures var n := Signed(sign, Value(digits)); Atoi(sign + digits) == if FitsInt64(n) then Some(n) else None
  {
    hide Value;
    assert digits[0] in digits;
    if sign == "" {
      assert sign + digits == digits;
    } else {
      assert (sign + digits)[1..] == digits;
    }
  }

  lemma {:induction false} AtoiTakesNumerals(text: string) returns (sign: string, digits: string)
    requires Atoi(text).Some?
    ensures text == sign + digits && sign in SIGNS && IsNumeral(digits)
  {
    hide Value;
    if text[0] == '-' || text[0] == '+' {
      sign, digits := text[..1], text[1..];
      assert sign == [text[0]];
    } else {
      sign, digits := "", text;
    }
  }

  /** The ways to write a number: a sign may stand in front, and zeros may lead. */
  predicate Writes(text: string, n: int, sign: string, k: nat, m: nat) {
    sign in SIGNS && text == sign + (Zeros(k) + OfNat(m)) && n == Signed(sign, m)
  }

  lemma {:induction false} NumeralBehindZeros(k: nat, n: nat)
    ensures IsNumeral(Zeros(k) + OfNat(n))
  {
    hide OfNat;
  }

  /** `Atoi` reads exactly the ways to write a number that fits 64 bits, and refuses every other text. */
  lemma {:induction false} AtoiReadsIff(text: string, n: int)
    ensures Atoi(text) == Some(n) <==> FitsInt64(n) && exists sign, k, m :: Writes(text, n, sign, k, m)
  {
    hide Atoi, OfNat, Zeros, Value, IsDigit;
    if Atoi(text) == Some(n) {
      var sign, digits := AtoiTakesNumerals(text);
      AtoiOfNumeral(sign, digits);
      var k := DigitsAreZerosAndNumber(digits);
      assert Writes(text, n, sign, k, Value(digits));
    }
    if sign, k, m :| Writes(text, n, sign, k, m) {
      ValueBehindZeros(k, m);
      NumeralBehindZeros(k, m);
      AtoiOfNumeral(sign, Zeros(k) + OfNat(m));
    }
  }
}
