/**
 * Kotlin's `Int`: a 32-bit two's-complement integer whose `+` and `-` wrap
 * around, together with the two text conversions the app relies on,
 * `Int.toString()` and `String.toIntOrNull()` (radix 10).
 */
module KotlinInt {
  import opened Wrappers

  const MinValue: int := -0x8000_0000
  const MaxValue: int := 0x7FFF_FFFF
  const Modulus: int := 0x1_0000_0000

  type Int32 = x: int | MinValue <= x <= MaxValue

  /** The 32-bit result of an unbounded integer: what Kotlin's `Int` arithmetic yields. */
  function Wrap(x: int): (r: Int32)
    ensures MinValue <= x <= MaxValue ==> r == x
    ensures (x - r) % Modulus == 0
  {
    (x - MinValue) % Modulus + MinValue
  }

  predicate IsDigit(c: char) {
    '0' <= c <= '9'
  }

  predicate AllDigits(s: string) {
    forall i :: 0 <= i < |s| ==> IsDigit(s[i])
  }

  function DigitValue(c: char): (d: nat)
    requires IsDigit(c)
    ensures d < 10
  {
    c as int - '0' as int
  }

  function DigitChar(d: nat): (c: char)
    requires d < 10
    ensures IsDigit(c) && DigitValue(c) == d
  {
    ('0' as int + d) as char
  }

  /** Decimal text of a natural number, most significant digit first, no leading zeros. */
  function Digits(n: nat): (s: string)
    ensures |s| > 0 && AllDigits(s)
    ensures n < 10 ==> |s| == 1
    ensures n == 0 <==> s == "0"
    ensures |s| > 1 ==> s[0] != '0'
  {
    if n < 10 then [DigitChar(n)] else Digits(n / 10) + [DigitChar(n % 10)]
  }

  /** The number a non-empty or empty run of decimal digits denotes. */
  function ValueOf(s: string): nat
    requires AllDigits(s)
  {
    if s == [] then 0 else ValueOf(s[..|s| - 1]) * 10 + DigitValue(s[|s| - 1])
  }

  lemma {:induction false} ValueOfDigits(n: nat)
    ensures ValueOf(Digits(n)) == n
  {
    if n >= 10 {
      var s := Digits(n);
      assert s[..|s| - 1] == Digits(n / 10);
      ValueOfDigits(n / 10);
    }
  }

  /** Kotlin's `Int.toString()`: an optional minus sign followed by the digits of the magnitude. */
  function ToString(i: int): (s: string)
    ensures |s| > 0
    ensures i >= 0 ==> AllDigits(s)
    ensures i < 0 ==> s[0] == '-'
    ensures i < 0 ==> |s| > 1 && AllDigits(s[1..]) && s[1] != '0'
    ensures i >= 0 && |s| > 1 ==> s[0] != '0'
  {
    if i < 0 then "-" + Digits(-i) else Digits(i)
  }

  /**
   * Kotlin's `String.toIntOrNull()`: an optional `+` or `-` sign followed by at
   * least one decimal digit and nothing else, whose value fits in an `Int`;
   * `None` stands for Kotlin's `null`.
   */
  function ToIntOrNull(s: string): (r: Option<Int32>)
    ensures r.Some? && AllDigits(s) ==> r.value >= 0
    ensures s == [] ==> r.None?
  {
    if s == [] then None
    else
      var negative := s[0] == '-';
      var body := if s[0] == '-' || s[0] == '+' then s[1..] else s;
      if body == [] || !AllDigits(body) then None
      else
        var v: int := if negative then 0 - ValueOf(body) else ValueOf(body);
        if MinValue <= v <= MaxValue then Some(v) else None
  }

  /** `toIntOrNull` reads back what `toString` writes, for every `Int`. */
  lemma ToIntOrNullOfToString(i: Int32)
    ensures ToIntOrNull(ToString(i)) == Some(i)
  {
    var s := ToString(i);
    if i < 0 {
      var magnitude: nat := 0 - i as int;
      assert s[0] == '-' && s[1..] == Digits(magnitude);
      ValueOfDigits(magnitude);
    } else {
      assert s == Digits(i) && IsDigit(s[0]);
      ValueOfDigits(i);
    }
  }

  /** A run of digits too large for an `Int` reads as `null`. */
  lemma ToIntOrNullOverflow(s: string)
    requires AllDigits(s) && s != [] && ValueOf(s) > MaxValue
    ensures ToIntOrNull(s) == None
  {
  }
}
