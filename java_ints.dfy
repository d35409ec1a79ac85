/** Java's fixed-width integers and their two's-complement wrap-around. */
module JavaInts {

  const TWO_31: int := 0x8000_0000
  const TWO_32: int := 0x1_0000_0000
  const TWO_63: int := 0x8000_0000_0000_0000
  const TWO_64: int := 0x1_0000_0000_0000_0000

  /** A Java `int`. */
  type Int32 = x: int | -TWO_31 <= x < TWO_31

  /** A Java `long`. */
  type Int64 = x: int | -TWO_63 <= x < TWO_63

  /** The `int` that Java arithmetic yields for the mathematical value `x`. */
  function Wrap32(x: int): (r: Int32)
    ensures (x - r) % TWO_32 == 0
    ensures -TWO_31 <= x < TWO_31 ==> r == x
  {
    (x + TWO_31) % TWO_32 - TWO_31
  }

  /** The `long` that Java arithmetic (or `Number.longValue()`) yields for `x`. */
  function Wrap64(x: int): (r: Int64)
    ensures (x - r) % TWO_64 == 0
    ensures -TWO_63 <= x < TWO_63 ==> r == x
    ensures TWO_63 <= x < TWO_64 ==> r == x - TWO_64
  {
    (x + TWO_63) % TWO_64 - TWO_63
  }

  /** Two values that agree modulo 2^32 wrap to the same `int`. */
  lemma Wrap32Congruent(x: int, y: int)
    requires (x - y) % TWO_32 == 0
    ensures Wrap32(x) == Wrap32(y)
  {
  }

  /** Adding a multiple of 2^32 does not change the remainder modulo 2^32. */
  lemma ModMultipleAdd(a: int, k: int)
    ensures (a + k * TWO_32) % TWO_32 == a % TWO_32
  {
  }

  /** Multiplying before or after wrapping gives the same `int`: Java's
      step-by-step `31 * h + e` wraps once per step, which equals one wrap at the end. */
  lemma Wrap32MulAdd(c: int, x: int, y: int)
    ensures Wrap32(c * Wrap32(x) + y) == Wrap32(c * x + y)
  {
    var w := Wrap32(x);
    var k := (x - w) / TWO_32;
    assert x - w == k * TWO_32;
    assert (c * x + y) - (c * w + y) == c * (x - w);
    assert c * (x - w) == (c * k) * TWO_32;
    assert ((c * k) * TWO_32) % TWO_32 == 0 by { ModMultipleAdd(0, c * k); }
    Wrap32Congruent(c * w + y, c * x + y);
  }
}
