/** Kotlin's 32-bit `Int`: values, and the wrap-around of `Long.toInt()`. */
module Ints {

  const TWO_32: int := 0x1_0000_0000
  const TWO_31: int := 0x8000_0000

  predicate IsInt32(x: int) {
    -TWO_31 <= x < TWO_31
  }

  /** `toInt()` on a wider integer: keep the low 32 bits, read as two's
      complement. */
  function ToInt32(x: int): (r: int)
    ensures IsInt32(r)
    ensures (x - r) % TWO_32 == 0
    ensures IsInt32(x) ==> r == x
  {
    var u := x % TWO_32;
    if u >= TWO_31 then u - TWO_32 else u
  }

  /** The 32 bits of an `Int` read as an unsigned number. */
  function Unsigned32(x: int): (u: nat)
    ensures u < TWO_32
    ensures (x - u) % TWO_32 == 0
  {
    x % TWO_32
  }

  /** Reading the bits of an `Int` unsigned and wrapping them back gives the
      same `Int`. */
  lemma UnsignedRoundTrip(x: int)
    requires IsInt32(x)
    ensures ToInt32(Unsigned32(x)) == x
  {
  }
}
