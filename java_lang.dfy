/**
 * The few Java language notions the model needs: references that may be
 * null, and the fixed-width integer types `byte` and `int` with the
 * two's-complement wrap-around of Java's `int` arithmetic.
 */
module JavaLang {

  /** A Java reference that may be null. */
  datatype Option<+T> = None | Some(value: T)

  const INT_MIN: int := -0x8000_0000
  const INT_MAX: int := 0x7FFF_FFFF

  /** Java's 32-bit signed `int`. */
  newtype int32 = x: int | -0x8000_0000 <= x < 0x8000_0000

  /** Java's 8-bit signed `byte`. */
  newtype int8 = x: int | -0x80 <= x < 0x80

  /** The `int` that Java's 32-bit arithmetic yields for the exact value `x`. */
  function WrapInt32(x: int): (r: int32)
    ensures INT_MIN <= x <= INT_MAX ==> r as int == x
    ensures (r as int - x) % 0x1_0000_0000 == 0
  {
    ((x - INT_MIN) % 0x1_0000_0000 + INT_MIN) as int32
  }
}
