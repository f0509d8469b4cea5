/**
 * The pieces of the Java platform that the plugin relies on: fixed-width integers,
 * the narrowing conversion `(int) long`, `String.valueOf(long)` and `Long.parseLong`.
 */
module JavaLang {
  import opened Wrappers

  /** Java `int`. */
  type Int32 = x: int | -0x8000_0000 <= x < 0x8000_0000

  /** Java `long`. */
  type Int64 = x: int | -0x8000_0000_0000_0000 <= x < 0x8000_0000_0000_0000

  /** Java `byte`. */
  type Byte = x: int | -0x80 <= x < 0x80

  const MinLong: int := -0x8000_0000_0000_0000
  const MaxLong: int := 0x7fff_ffff_ffff_ffff

  /** `(int) x` for a `long` x (equivalently `Long.intValue()`): keeps the low
    * 32 bits and reads them back in two's complement. */
  function IntValue(x: Int64): (r: Int32)
    ensures (x - r) % 0x1_0000_0000 == 0
    ensures -0x8000_0000 <= x < 0x8000_0000 ==> r == x
  {
    var low := x % 0x1_0000_0000;
    if low < 0x8000_0000 then low else low - 0x1_0000_0000
  }

  /** The narrowing is the only `int` congruent to its argument modulo 2^32. */
  lemma IntValueUnique(x: Int64, y: Int32)
    requires (x - y) % 0x1_0000_0000 == 0
    ensures IntValue(x) == y
  {
  }

  predicate IsDigit(c: char) {
    '0' <= c <= '9'
  }

  predicate AllDigits(s: string) {
    forall i :: 0 <= i < |s| ==> IsDigit(s[i])
  }

  function DigitChar(d: nat): (c: char)
    requires d < 10
    ensures IsDigit(c) && c as int - '0' as int == d
  {
    ('0' as int + d) as char
  }

  /** The number an ASCII decimal numeral stands for (the empty numeral stands for 0). */
  function DigitsValue(s: string): nat
    requires AllDigits(s)
  {
    if s == [] then 0 else DigitsValue(s[..|s| - 1]) * 10 + (s[|s| - 1] as int - '0' as int)
  }

  /** The shortest decimal numeral of n, as `Long.toString` writes a non-negative value. */
  function DecimalDigits(n: nat): (s: string)
    ensures |s| > 0 && AllDigits(s)
    ensures |s| == 1 <==> n < 10
    ensures |s| > 1 ==> s[0] != '0'
  {
    if n < 10 then [DigitChar(n)] else DecimalDigits(n / 10) + [DigitChar(n % 10)]
  }

  /** `String.valueOf(long)`: a minus sign for negative values, then the digits of the magnitude. */
  function LongToString(x: Int64): (s: string)
    ensures |s| > 0
    ensures s[0] == '-' <==> x < 0
    ensures AllDigits(if x < 0 then s[1..] else s)
  {
    if x < 0 then "-" + DecimalDigits(-(x as int)) else DecimalDigits(x)
  }

  /** The text of `s` after an optional leading sign. */
  function Unsigned(s: string): string {
    if s != [] && (s[0] == '-' || s[0] == '+') then s[1..] else s
  }

  /**
   * `Long.parseLong(s)`: an optional `-` or `+`, then at least one decimal digit,
   * and the value must fit in a `long`; anything else throws `NumberFormatException`,
   * modelled as `None`.
   */
  function ParseLong(s: string): (r: Option<Int64>)
    ensures r.Some? ==> |Unsigned(s)| > 0 && AllDigits(Unsigned(s))
    ensures r.Some? && s[0] == '-' ==> r.value <= 0
    ensures r.Some? && s[0] != '-' ==> r.value >= 0
  {
    var digits := Unsigned(s);
    if digits == [] || !AllDigits(digits) then None
    else
      var magnitude := DigitsValue(digits);
      var v: int := if s[0] == '-' then -(magnitude as int) else magnitude;
      if MinLong <= v <= MaxLong then Some(v) else None
  }

  /** Reading back the numeral `DecimalDigits` writes gives the number written. */
  lemma {:induction false} DecimalDigitsValue(n: nat)
    ensures DigitsValue(DecimalDigits(n)) == n
  {
    if n >= 10 {
      var s := DecimalDigits(n);
      var prefix := DecimalDigits(n / 10);
      assert s[..|s| - 1] == prefix;
      DecimalDigitsValue(n / 10);
    }
  }

  /** A non-negative numeral is accepted exactly when its value fits in a `long`;
    * `-` followed by the numeral of n is accepted exactly when n is at most 2^63. */
  lemma ParseLongRange(n: nat)
    ensures ParseLong(DecimalDigits(n)) == (if n <= MaxLong then Some(n) else None)
    ensures ParseLong("-" + DecimalDigits(n)) == (if n <= -MinLong then Some(-(n as int)) else None)
  {
    var s := DecimalDigits(n);
    assert s[0] != '-' && s[0] != '+' by { assert IsDigit(s[0]); }
    assert Unsigned(s) == s;
    assert ("-" + s)[0] == '-';
    assert Unsigned("-" + s) == s;
    DecimalDigitsValue(n);
  }

  /** `Long.parseLong(String.valueOf(x)) == x` for every `long` x. */
  lemma ParseLongRoundTrip(x: Int64)
    ensures ParseLong(LongToString(x)) == Some(x)
  {
    if x < 0 {
      ParseLongRange(-(x as int));
    } else {
      ParseLongRange(x);
    }
  }
}
