/**
 * Java's fixed-width integer arithmetic, written out: Dafny's `int` is unbounded,
 * Java's `long` and `int` wrap around in two's complement, and Java's `/` truncates
 * toward zero while Dafny's is Euclidean.
 */
module JavaInt {

  const TWO_31: int := 0x8000_0000
  const TWO_32: int := 0x1_0000_0000
  const TWO_63: int := 0x8000_0000_0000_0000
  const TWO_64: int := 0x1_0000_0000_0000_0000

  /** Values of Java's `long`. */
  type Long = x: int | -0x8000_0000_0000_0000 <= x < 0x8000_0000_0000_0000

  /** Values of Java's `int`. */
  type Int32 = x: int | -0x8000_0000 <= x < 0x8000_0000

  /** The `long` that Java's arithmetic yields for the mathematical result `x`. */
  function WrapLong(x: int): (r: Long)
    ensures (r - x) % TWO_64 == 0
    ensures -TWO_63 <= x < TWO_63 ==> r == x
  {
    (x + TWO_63) % TWO_64 - TWO_63
  }

  /** The narrowing cast `(int) x` of a `long`: its low 32 bits, read as signed. */
  function ToInt(x: Long): (r: Int32)
    ensures (r - x) % TWO_32 == 0
    ensures -TWO_31 <= x < TWO_31 ==> r == x
  {
    (x + TWO_31) % TWO_32 - TWO_31
  }

  /** Math.abs(long): the absolute value, except that Long.MIN_VALUE stays negative. */
  function LongAbs(x: Long): (r: Long)
    ensures x != -TWO_63 ==> r == if x < 0 then -x else x
    ensures x == -TWO_63 ==> r == x
  {
    var negated: int := 0 - x as int;
    if x < 0 then WrapLong(negated) else x
  }

  /** Java's `a / b` for a positive divisor: the quotient rounds toward zero. */
  function JavaDiv(a: int, b: int): (q: int)
    requires b > 0
    ensures a >= 0 ==> q == a / b
    ensures a < 0 ==> q == -((-a) / b)
  {
    if a >= 0 then a / b else -((-a) / b)
  }
}
