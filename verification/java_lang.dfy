/**
 * The few pieces of the Java platform that the codec layer leans on:
 * the 32-bit `int`, null references and exceptions as values,
 * `Integer.toString` (used by every codec's `toString`) and
 * `String.hashCode` (used by `ZstandardCodec.hashCode`).
 */
module JavaLang {

  /** Java's `int`. */
  newtype int32 = x: int | -0x8000_0000 <= x < 0x8000_0000

  /** A Java reference that may be null: `None` is `null`. */
  datatype Option<T> = None | Some(value: T)

  /** The exceptions the modelled code raises. */
  datatype Exception =
    | AvroRuntimeException(message: string)
    | NullPointerException
    | IOException(message: string)
    | IllegalArgumentException

  /** A Java call that either returns a value or throws. */
  datatype Result<T> = Ok(value: T) | Thrown(error: Exception)

  function Min(a: int32, b: int32): (m: int32)
    ensures m <= a && m <= b && (m == a || m == b)
  {
    if a <= b then a else b
  }

  function Max(a: int32, b: int32): (m: int32)
    ensures m >= a && m >= b && (m == a || m == b)
  {
    if a >= b then a else b
  }

  // ---------------------------------------------------------------------
  // Integer.toString: an optional '-' followed by the decimal digits of
  // the magnitude, without leading zeros.
  // ---------------------------------------------------------------------

  predicate IsDigit(c: char) {
    '0' <= c <= '9'
  }

  function DigitChar(d: nat): (c: char)
    requires d < 10
    ensures IsDigit(c)
  {
    (48 + d) as char
  }

  function DigitValue(c: char): (d: nat)
    requires IsDigit(c)
    ensures d < 10
  {
    c as int - 48
  }

  /** The decimal digits of `n`, most significant first. */
  function Digits(n: nat): (s: string)
    ensures |s| > 0
    decreases n
  {
    if n < 10 then [DigitChar(n)] else Digits(n / 10) + [DigitChar(n % 10)]
  }

  /** `Integer.toString(i)`. */
  function IntToString(i: int): (s: string)
    ensures |s| > 0
  {
    if i < 0 then "-" + Digits(-i) else Digits(i)
  }

  predicate AllDigits(s: string) {
    forall k :: 0 <= k < |s| ==> IsDigit(s[k])
  }

  /** Reads a run of decimal digits back into a number. */
  function ParseDigits(s: string): nat
    requires AllDigits(s)
    decreases |s|
  {
    if |s| == 0 then 0 else ParseDigits(s[..|s| - 1]) * 10 + DigitValue(s[|s| - 1])
  }

  /** An optional '-' followed by at least one decimal digit. */
  predicate IsIntText(s: string) {
    |s| > 0 && (if s[0] == '-' then |s| > 1 && AllDigits(s[1..]) else AllDigits(s))
  }

  /** `Integer.parseInt` restricted to the strings `IntToString` produces. */
  function ParseInt(s: string): int
    requires IsIntText(s)
  {
    if s[0] == '-' then -(ParseDigits(s[1..]) as int) else ParseDigits(s)
  }

  lemma {:induction false} DigitsRoundTrip(n: nat)
    ensures AllDigits(Digits(n))
    ensures ParseDigits(Digits(n)) == n
    decreases n
  {
    if n >= 10 {
      DigitsRoundTrip(n / 10);
      var s := Digits(n);
      assert s[..|s| - 1] == Digits(n / 10);
    }
  }

  /** The decimal text of an integer determines the integer. */
  lemma IntToStringRoundTrip(i: int)
    ensures IsIntText(IntToString(i)) && ParseInt(IntToString(i)) == i
  {
    var s := IntToString(i);
    if i < 0 {
      DigitsRoundTrip(-i);
      assert s[1..] == Digits(-i);
    } else {
      DigitsRoundTrip(i);
    }
  }

  lemma IntToStringInjective(a: int, b: int)
    ensures IntToString(a) == IntToString(b) <==> a == b
  {
    IntToStringRoundTrip(a);
    IntToStringRoundTrip(b);
  }

  /** Two texts that agree outside a middle part agree in the middle part. */
  lemma FramedEqual(prefix: string, x: string, y: string, suffix: string)
    requires prefix + x + suffix == prefix + y + suffix
    ensures x == y
  {
    var s := prefix + x + suffix;
    assert x == s[|prefix|..|s| - |suffix|];
    assert y == s[|prefix|..|s| - |suffix|];
  }

  // ---------------------------------------------------------------------
  // String.hashCode: h = 31 * h + c over the characters, in 32-bit
  // two's-complement arithmetic.
  // ---------------------------------------------------------------------

  /** Truncates an integer to Java's `int` the way two's-complement overflow does. */
  function Wrap(x: int): (r: int32)
    ensures (r as int - x) % 0x1_0000_0000 == 0
  {
    var m := x % 0x1_0000_0000;
    if m < 0x8000_0000 then m as int32 else (m - 0x1_0000_0000) as int32
  }

  function StringHash(s: string): int32
    decreases |s|
  {
    if |s| == 0 then 0 else Wrap(31 * StringHash(s[..|s| - 1]) as int + s[|s| - 1] as int)
  }
}
