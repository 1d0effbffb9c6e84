/** Small shared vocabulary: an option type for Java's nullable references
    and Java's 32-bit `int` arithmetic. */
module Common {

  /** A nullable reference: `None` plays Java's `null`. */
  datatype Option<T> = None | Some(value: T)

  const INT_MIN: int := -0x8000_0000
  const INT_MAX: int := 0x7fff_ffff

  /** The values of a Java `int`. */
  type int32 = x: int | INT_MIN <= x <= INT_MAX

  const TWO_32: int := 0x1_0000_0000

  /** Java's `int` wrap-around: the unique 32-bit value congruent to `x`. */
  function Wrap32(x: int): (r: int32)
    ensures (r - x) % TWO_32 == 0
    ensures INT_MIN <= x <= INT_MAX ==> r == x
  {
    var m := (x - INT_MIN) % TWO_32;
    m + INT_MIN
  }

  lemma {:induction false} Wrap32Overflow()
    ensures Wrap32(INT_MAX + 1) == INT_MIN
    ensures Wrap32(2 * INT_MIN) == 0
    ensures Wrap32(10 * INT_MIN) == 0
  {
  }

  function Max(a: int, b: int): (r: int)
    ensures r >= a && r >= b && (r == a || r == b)
  {
    if a >= b then a else b
  }

  function Abs(a: int): (r: int)
    ensures r >= 0 && (r == a || r == -a)
  {
    if a < 0 then -a else a
  }
}
