/**
 * The few pieces of the Java language and library that the sigil generator
 * relies on: UTF-16 code units, 32-bit `int` arithmetic, null and exceptions.
 */
module JavaLang {

  /** A Java `char`: one UTF-16 code unit (not a code point). */
  type Char16 = c: int | 0 <= c < 0x1_0000

  /** A Java `String`, as its sequence of UTF-16 code units. */
  type JString = seq<Char16>

  const SPACE: Char16 := 0x20
  const QUOTE: Char16 := 0x27   // '
  const MINUS: Char16 := 0x2D   // -
  const DOT: Char16 := 0x2E     // .
  const ZERO: Char16 := 0x30    // 0

  /** What `String.valueOf((Object) null)` and `%s` of null produce. */
  const NULL_TEXT: JString := [0x6E, 0x75, 0x6C, 0x6C]

  const INT_MIN: int := -0x8000_0000
  const INT_MAX: int := 0x7FFF_FFFF
  const TWO_32: int := 0x1_0000_0000

  /** A Java `int`. */
  type Int32 = x: int | -0x8000_0000 <= x < 0x8000_0000

  /**
   * The Java `int` that an exact integer result is stored as: its low-order
   * 32 bits read in two's complement (section 15.17.1 of the Java Language
   * Specification for multiplication).
   */
  function Wrap32(x: int): Int32
  {
    (x - INT_MIN) % TWO_32 + INT_MIN
  }

  /** Wrap32 is the unique Java `int` congruent to `x` modulo 2^32. */
  lemma Wrap32Congruent(x: int)
    ensures x == Wrap32(x) + ((x - INT_MIN) / TWO_32) * TWO_32
  {
  }

  lemma Wrap32Unique(x: int, q: int, r: int)
    requires INT_MIN <= r <= INT_MAX
    requires x == r + q * TWO_32
    ensures Wrap32(x) == r
  {
    var k := (x - INT_MIN) / TWO_32;
    Wrap32Congruent(x);
    assert x == Wrap32(x) + k * TWO_32;
    assert (q - k) * TWO_32 == Wrap32(x) - r;
  }

  datatype Option<T> = None | Some(value: T)

  datatype Result<T, E> = Ok(value: T) | Err(error: E)

  /** The runtime exceptions the modelled code can raise. */
  datatype JavaError =
    | IllegalArgument   // Random.nextInt(bound) with bound <= 0
    | NullPointer       // a method called on a null String
}
