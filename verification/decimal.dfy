/** Decimal rendering and parsing of Go's `int`, as done by `strconv.Itoa` and
    `strconv.Atoi`. The classifier renders an unexpected status code with `Itoa`;
    `Atoi` is the reading-back direction that shows the code survives in the message. */
module Decimal {
  import opened Wrappers

  const MinInt: int := -0x8000_0000_0000_0000
  const MaxInt: int := 0x7fff_ffff_ffff_ffff

  /** Go's `int` on a 64-bit platform. */
  type GoInt = i: int | MinInt <= i <= MaxInt

  predicate IsDigit(ch: char) {
    '0' <= ch <= '9'
  }

  predicate AllDigits(s: string) {
    forall k :: 0 <= k < |s| ==> IsDigit(s[k])
  }

  function DigitChar(d: nat): (ch: char)
    requires d < 10
    ensures IsDigit(ch)
  {
    "0123456789"[d]
  }

  function DigitValue(ch: char): (d: nat)
    requires IsDigit(ch)
    ensures d < 10
  {
    (ch as int) - ('0' as int)
  }

  lemma DigitValueOfDigitChar(d: nat)
    requires d < 10
    ensures DigitValue(DigitChar(d)) == d
  {
  }

  /** The shortest decimal spelling of `n`: never empty, and with a leading zero
      only when `n` is zero itself. */
  function NatDigits(n: nat): (s: string)
    ensures |s| > 0
    ensures AllDigits(s)
    ensures s[0] == '0' <==> n == 0
    decreases n
  {
    if n < 10 then [DigitChar(n)] else NatDigits(n / 10) + [DigitChar(n % 10)]
  }

  /** The number a string of decimal digits denotes (leading zeros allowed). */
  function DigitsValue(s: string): nat
    requires AllDigits(s)
  {
    if |s| == 0 then 0 else 10 * DigitsValue(s[..|s| - 1]) + DigitValue(s[|s| - 1])
  }

  lemma {:induction false} DigitsValueOfNatDigits(n: nat)
    ensures DigitsValue(NatDigits(n)) == n
    decreases n
  {
    var s := NatDigits(n);
    if n < 10 {
      DigitValueOfDigitChar(n);
      assert s[..|s| - 1] == [];
    } else {
      DigitsValueOfNatDigits(n / 10);
      DigitValueOfDigitChar(n % 10);
      assert s[..|s| - 1] == NatDigits(n / 10);
    }
  }

  /** `strconv.Itoa`: an optional minus sign followed by the shortest decimal
      spelling of the magnitude. */
  function Itoa(i: int): (s: string)
    ensures |s| > 0
    ensures s[0] == '-' <==> i < 0
    ensures forall k :: (if i < 0 then 1 else 0) <= k < |s| ==> IsDigit(s[k])
    ensures i < 0 ==> |s| > 1
    ensures i >= 0 ==> (s[0] == '0' <==> i == 0)
    ensures i < 0 ==> s[1] != '0'
  {
    if i < 0 then
      var digits := NatDigits(-i);
      assert ("-" + digits)[1..] == digits;
      "-" + digits
    else NatDigits(i)
  }

  /** The value of an optional sign followed by digits, when it fits a Go `int`. */
  function SignedValue(negative: bool, digits: string): Option<GoInt>
    requires AllDigits(digits)
  {
    var magnitude: int := DigitsValue(digits);
    var v := if negative then -magnitude else magnitude;
    if MinInt <= v <= MaxInt then Some(v) else None
  }

  /** `strconv.Atoi` (base 10): an optional `+` or `-`, then one or more decimal
      digits, within the range of a Go `int`; anything else is an error (None). */
  function Atoi(s: string): (r: Option<GoInt>)
    ensures r.Some? ==> |s| > 0
    ensures r.Some? && !(s[0] == '-' || s[0] == '+') ==> AllDigits(s)
  {
    if |s| == 0 then None
    else if s[0] == '-' || s[0] == '+' then
      var digits := s[1..];
      if |digits| == 0 || !AllDigits(digits) then None else SignedValue(s[0] == '-', digits)
    else if AllDigits(s) then SignedValue(false, s)
    else None
  }

  lemma AtoiOfUnsigned(digits: string)
    requires |digits| > 0 && AllDigits(digits)
    ensures Atoi(digits) == SignedValue(false, digits)
  {
    assert IsDigit(digits[0]);
  }

  lemma AtoiOfNegative(digits: string)
    requires |digits| > 0 && AllDigits(digits)
    ensures Atoi("-" + digits) == SignedValue(true, digits)
  {
    var s := "-" + digits;
    assert s[0] == '-';
    assert s[1..] == digits;
  }

  /** Reading back what `Itoa` wrote gives the number again, negatives included. */
  lemma AtoiOfItoa(i: GoInt)
    ensures Atoi(Itoa(i)) == Some(i)
  {
    if i < 0 {
      DigitsValueOfNatDigits(-(i as int));
      AtoiOfNegative(NatDigits(-(i as int)));
    } else {
      DigitsValueOfNatDigits(i);
      AtoiOfUnsigned(NatDigits(i));
    }
  }

  /** Distinct numbers are never rendered alike. */
  lemma ItoaInjective(a: GoInt, b: GoInt)
    ensures Itoa(a) == Itoa(b) ==> a == b
  {
    AtoiOfItoa(a);
    AtoiOfItoa(b);
  }
}
