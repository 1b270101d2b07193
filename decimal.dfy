/**
 * Decimal text as the Java runtime writes and reads it: `Long.toString`,
 * `String.format("%d", i)` and `Integer.parseInt` (ASCII digits, radix 10).
 */
module Decimal {
  import opened Wrappers

  /** Range of a Java `int`. */
  const MinInt: int := -0x8000_0000
  const MaxInt: int := 0x7fff_ffff

  /** Range of a Java `long` (the type of `System.nanoTime()`). */
  const MinLong: int := -0x8000_0000_0000_0000
  const MaxLong: int := 0x7fff_ffff_ffff_ffff

  /** A Java `long` value. */
  type Long = t: int | MinLong <= t <= MaxLong

  predicate IsDigit(c: char) {
    '0' <= c <= '9'
  }

  predicate AllDigits(s: string) {
    forall i :: 0 <= i < |s| ==> IsDigit(s[i])
  }

  function DigitChar(d: nat): (c: char)
    requires d < 10
    ensures IsDigit(c)
  {
    (('0' as int) + d) as char
  }

  function DigitValue(c: char): nat
    requires IsDigit(c)
  {
    (c as int) - ('0' as int)
  }

  /** The shortest decimal numeral of `n` (no sign, no leading zeros). */
  function Digits(n: nat): string
  {
    if n < 10 then [DigitChar(n)] else Digits(n / 10) + [DigitChar(n % 10)]
  }

  /** The number a string of digits denotes, read left to right. */
  function Value(s: string): nat
    requires AllDigits(s)
  {
    if s == [] then 0 else Value(s[..|s| - 1]) * 10 + DigitValue(s[|s| - 1])
  }

  /** `Long.toString(t)`, and equally `String.format("%d", t)`: a minus sign for negatives. */
  function LongToString(t: int): string
  {
    if t < 0 then "-" + Digits(-t) else Digits(t)
  }

  /** The number an optionally signed numeral denotes, with no range limit; None if malformed. */
  function ParseSigned(s: string): (r: Option<int>)
    ensures r.Some? ==> 1 <= |s|
    ensures r.Some? && s[0] != '-' ==> r.value >= 0
  {
    if |s| == 0 then None
    else if s[0] == '-' || s[0] == '+' then
      if |s| == 1 || !AllDigits(s[1..]) then None
      else if s[0] == '-' then Some(-(Value(s[1..]) as int)) else Some(Value(s[1..]))
    else if AllDigits(s) then Some(Value(s))
    else None
  }

  /** `Integer.parseInt(s)`: None stands for the NumberFormatException it throws. */
  function ParseInt(s: string): (r: Option<int>)
    ensures r.Some? ==> MinInt <= r.value <= MaxInt
    ensures r.Some? ==> ParseSigned(s) == r
  {
    match ParseSigned(s)
    case Some(v) => if MinInt <= v <= MaxInt then Some(v) else None
    case None => None
  }

  lemma {:induction false} DigitsAreDigits(n: nat)
    ensures |Digits(n)| >= 1 && AllDigits(Digits(n))
    ensures Digits(n)[0] != '-' && Digits(n)[0] != '+'
  {
    if n >= 10 {
      DigitsAreDigits(n / 10);
      assert Digits(n)[0] == Digits(n / 10)[0];
    }
  }

  /** Reading back the numeral of `n` gives `n`. */
  lemma {:induction false} ValueOfDigits(n: nat)
    ensures AllDigits(Digits(n)) && Value(Digits(n)) == n
  {
    DigitsAreDigits(n);
    if n >= 10 {
      var d := Digits(n / 10);
      DigitsAreDigits(n / 10);
      ValueOfDigits(n / 10);
      assert Digits(n)[..|Digits(n)| - 1] == d;
    } else {
      assert Digits(n)[..0] == [];
    }
  }

  /** No numeral contains a minus sign. */
  lemma DigitsHaveNoDash(n: nat)
    ensures '-' !in Digits(n)
  {
    DigitsAreDigits(n);
  }

  /** `Long.toString` and `ParseSigned` are inverse on every integer. */
  lemma ParseSignedOfLongToString(t: int)
    ensures ParseSigned(LongToString(t)) == Some(t)
  {
    if t < 0 {
      ValueOfDigits(-t);
      DigitsAreDigits(-t);
      assert LongToString(t)[1..] == Digits(-t);
    } else {
      ValueOfDigits(t);
      DigitsAreDigits(t);
    }
  }

  /** `Integer.parseInt(String.format("%d", i)) == i` for every Java int `i`. */
  lemma ParseIntOfFormat(i: int)
    requires MinInt <= i <= MaxInt
    ensures ParseInt(LongToString(i)) == Some(i)
  {
    ParseSignedOfLongToString(i);
  }
}
