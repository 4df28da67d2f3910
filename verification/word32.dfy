/**
  The fixed-width integers of sip.c on a platform where `unsigned int` and
  `int` are both 32 bits wide: unsigned arithmetic wraps modulo 2^32, and an
  `unsigned int` passed where an `int` is expected is reinterpreted in two's
  complement.
 */
module Word32 {

  const TWO31: int := 0x8000_0000
  const TWO32: int := 0x1_0000_0000

  /** Values of a 32-bit `unsigned int`. */
  type U32 = x: int | 0 <= x < 0x1_0000_0000

  /** Values of a 32-bit two's-complement `int`. */
  type I32 = x: int | -0x8000_0000 <= x < 0x8000_0000

  /** Unsigned subtraction `a - b`: the unique 32-bit value that, added to `b`, gives `a` modulo 2^32. */
  function Sub(a: U32, b: U32): (r: U32)
    ensures (r + b) % TWO32 == a
    ensures b <= a ==> r == a - b
    ensures a < b ==> r == TWO32 - (b - a)
  {
    (a - b) % TWO32
  }

  /** Conversion of an `unsigned int` to `int`: values from 2^31 upwards read as negative. */
  function ToSigned(u: U32): (r: I32)
    ensures (u - r) % TWO32 == 0
    ensures r < 0 <==> TWO31 <= u
  {
    if u < TWO31 then u else u - TWO32
  }

  /**
    Conversion of an `int` to `unsigned int`: reduction modulo 2^32. The model
    applies it to nothing the program converts; it is here as the inverse that
    `SignedRoundTrip` states for `ToSigned`.
   */
  function ToUnsigned(i: I32): (r: U32)
    ensures (r - i) % TWO32 == 0
    ensures 0 <= i ==> r == i
  {
    i % TWO32
  }

  /** The two conversions are inverse bijections between the two 32-bit types. */
  lemma SignedRoundTrip(u: U32, i: I32)
    ensures ToUnsigned(ToSigned(u)) == u
    ensures ToSigned(ToUnsigned(i)) == i
  {
  }

  /**
    When both operands are below 2^31, reading the wrapped unsigned difference
    as a signed value recovers the exact mathematical difference, negative or not.
   */
  lemma SignedDifference(a: U32, b: U32)
    requires a < TWO31 && b < TWO31
    ensures ToSigned(Sub(a, b)) == a - b
  {
  }
}
