/** The Java primitive types the source relies on: `byte`, `int` and its wrap-around. */
module JavaTypes {

  /**
   * A Java `byte`, as the unsigned value of its eight bits (what `InputStream.read` returns).
   * The source compares bytes only with other bytes and masks, so sign extension to `int` does not
   * change any comparison it makes.
   */
  type byte = b: int | 0 <= b < 256

  const MAX_INT: int := 0x7FFF_FFFF
  const MIN_INT: int := -0x8000_0000

  /** The values of a Java `int`. */
  type int32 = x: int | -0x8000_0000 <= x <= 0x7FFF_FFFF

  /** A byte array: Java arrays hold at most `Integer.MAX_VALUE` elements. */
  type Bytes = s: seq<byte> | |s| <= 0x7FFF_FFFF

  /**
   * `x + 1` on a Java `int`: the mathematical sum reduced to 32 bits in two's complement, so
   * `MAX_INT + 1` wraps around to `MIN_INT`.
   */
  function Increment(x: int32): (r: int32)
    ensures r == (x + 1 - MIN_INT) % 0x1_0000_0000 + MIN_INT
  {
    if x == MAX_INT then MIN_INT else x + 1
  }
}
