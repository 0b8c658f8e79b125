/** Java's fixed-width integer arithmetic, written out where the source depends on it. */
module JavaInt {

  const INT_MIN: int := -0x8000_0000
  const INT_MAX: int := 0x7fff_ffff

  predicate IsInt(x: int) { INT_MIN <= x <= INT_MAX }

  /** The values of a Java `int`. */
  type Int32 = x: int | IsInt(x)

  predicate IsShort(x: int) { -0x8000 <= x <= 0x7fff }

  /** The 32-bit two's complement value Java keeps of the mathematical integer `x`. */
  function Wrap32(x: int): (r: int)
    ensures IsInt(r)
    ensures (r - x) % 0x1_0000_0000 == 0
    ensures IsInt(x) ==> r == x
  {
    var m := (x - INT_MIN) % 0x1_0000_0000;
    m + INT_MIN
  }

  /** The `(short)` cast: the low 16 bits, read as two's complement. */
  function ToShort(x: int): (r: int)
    ensures IsShort(r)
    ensures (r - x) % 0x1_0000 == 0
    ensures IsShort(x) ==> r == x
  {
    var m := (x + 0x8000) % 0x1_0000;
    m - 0x8000
  }

  /** `x++` on a Java `int`. */
  function IntInc(x: int): (r: int)
    requires IsInt(x)
    ensures IsInt(r)
    ensures x < INT_MAX ==> r == x + 1
    ensures x == INT_MAX ==> r == INT_MIN
  {
    Wrap32(x + 1)
  }

  /** `a * b` on two Java `int`s. */
  function IntMul(a: int, b: int): (r: int)
    ensures IsInt(r)
    ensures IsInt(a * b) ==> r == a * b
  {
    Wrap32(a * b)
  }
}
