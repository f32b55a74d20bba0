/**
 * The integer semantics of the JVM that the application relies on: 64-bit `Long`
 * bounds, the `Long.toInt()` narrowing, division and remainder that truncate toward
 * zero, and the decimal text of `Long.toString()`.
 */
module Jvm {

  import opened Wrappers

  const LONG_MAX: int := 0x7FFF_FFFF_FFFF_FFFF
  const LONG_MIN: int := -0x8000_0000_0000_0000
  const INT_MIN: int := -0x8000_0000
  const INT_MAX: int := 0x7FFF_FFFF

  predicate IsLong(x: int) { LONG_MIN <= x <= LONG_MAX }

  /** `Long.toInt()`: keeps the low 32 bits and reads them as a signed `Int`. */
  function ToInt(x: int): int
  {
    var low := x % 0x1_0000_0000;
    if low <= INT_MAX then low else low - 0x1_0000_0000
  }

  /** Narrowing gives an `Int` congruent to the `Long` modulo 2^32, and leaves an `Int` as it is. */
  lemma ToIntWraps(x: int)
    ensures INT_MIN <= ToInt(x) <= INT_MAX
    ensures (x - ToInt(x)) % 0x1_0000_0000 == 0
    ensures INT_MIN <= x <= INT_MAX ==> ToInt(x) == x
  {
  }

  /** Integer `/` on the JVM: the quotient is truncated toward zero. */
  function Quot(a: int, b: int): int
    requires b > 0
  {
    if a >= 0 then a / b else -((-a) / b)
  }

  /** Integer `%` on the JVM: the remainder takes the sign of the dividend. */
  function Rem(a: int, b: int): int
    requires b > 0
  {
    a - Quot(a, b) * b
  }

  /** The truncated quotient rounds toward zero, and the remainder keeps the sign of the dividend. */
  lemma {:induction false} QuotTruncates(a: int, b: int)
    requires b > 0
    ensures 0 <= a ==> 0 <= Quot(a, b) && Quot(a, b) * b <= a < Quot(a, b) * b + b
    ensures a < 0 ==> Quot(a, b) <= 0 && Quot(a, b) * b - b < a <= Quot(a, b) * b
    ensures a == Quot(a, b) * b + Rem(a, b)
    ensures 0 <= a ==> 0 <= Rem(a, b) < b
    ensures a < 0 ==> -b < Rem(a, b) <= 0
  {
    if a >= 0 {
      EuclidStep(a, b);
    } else {
      EuclidStep(-a, b);
      var q := (-a) / b;
      assert Quot(a, b) == -q;
      assert Quot(a, b) * b == -(q * b);
    }
  }

  lemma EuclidStep(n: int, b: int)
    requires n >= 0 && b > 0
    ensures 0 <= n / b && (n / b) * b <= n < (n / b) * b + b
  {
  }

  /** `x % 2 != 0` on the JVM holds exactly for the odd numbers, negative ones included. */
  lemma RemTwoIsParity(x: int)
    ensures (Rem(x, 2) != 0) <==> (x % 2 == 1)
  {
  }

  /** Narrowing with `toInt()` keeps the parity of a `Long`, as 2^32 is even. */
  lemma {:induction false} ToIntKeepsParity(x: int)
    ensures ToInt(x) % 2 == x % 2
  {
    var q := x / 0x1_0000_0000;
    var low := x % 0x1_0000_0000;
    assert x == low + 2 * (q * 0x8000_0000);
    EvenShiftKeepsParity(low, q * 0x8000_0000);
    EvenShiftKeepsParity(low, -0x8000_0000);
  }

  lemma EvenShiftKeepsParity(a: int, k: int)
    ensures (a + 2 * k) % 2 == a % 2
  {
    var m := a % 2;
    assert a == 2 * (a / 2) + m;
    assert a + 2 * k == 2 * (a / 2 + k) + m;
  }

  /** The decimal digits of a natural number, most significant first, without leading zeros. */
  function Digits(n: nat): (s: string)
    ensures |s| >= 1
    ensures forall i :: 0 <= i < |s| ==> '0' <= s[i] <= '9'
    ensures |s| > 1 ==> s[0] != '0'
  {
    if n < 10 then [DigitChar(n)] else Digits(n / 10) + [DigitChar(n % 10)]
  }

  function DigitChar(d: nat): (c: char)
    requires d < 10
    ensures '0' <= c <= '9'
  {
    (('0' as int) + d) as char
  }

  /** `Long.toString()`: an optional minus sign followed by the decimal digits. */
  function LongToString(x: int): (s: string)
    ensures |s| >= 1
  {
    if x < 0 then "-" + Digits(-x) else Digits(x)
  }

  /** Reads a string of decimal digits back as a natural number. */
  function ParseDigits(s: string): (n: nat)
    requires forall i :: 0 <= i < |s| ==> '0' <= s[i] <= '9'
  {
    if s == [] then 0 else ParseDigits(s[..|s| - 1]) * 10 + ((s[|s| - 1] as int) - ('0' as int))
  }

  /** Reads the text `LongToString` writes; `None` on anything else. */
  function ParseLong(s: string): (r: Option<int>)
  {
    if |s| >= 2 && s[0] == '-' && IsDigits(s[1..]) then Some(0 - ParseDigits(s[1..]) as int)
    else if |s| >= 1 && IsDigits(s) then Some(ParseDigits(s) as int)
    else None
  }

  predicate IsDigits(s: string) { forall i :: 0 <= i < |s| ==> '0' <= s[i] <= '9' }

  lemma {:induction false} ParseDigitsOfDigits(n: nat)
    ensures ParseDigits(Digits(n)) == n
  {
    if n >= 10 {
      var s := Digits(n);
      assert s[..|s| - 1] == Digits(n / 10);
      ParseDigitsOfDigits(n / 10);
    }
  }

  /** Every `Long` written by `LongToString` is read back unchanged by `ParseLong`. */
  lemma ParseLongOfLongToString(x: int)
    ensures ParseLong(LongToString(x)) == Some(x)
  {
    var s := LongToString(x);
    if x < 0 {
      var d := Digits(-x);
      assert s == "-" + d && s[1..] == d && s[0] == '-';
      assert IsDigits(d);
      ParseDigitsOfDigits(-x);
    } else {
      assert s == Digits(x) && IsDigits(s);
      assert '0' <= s[0] <= '9';
      ParseDigitsOfDigits(x);
    }
  }
}
