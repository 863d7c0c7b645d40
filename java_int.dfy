/** Java's Long.intValue: the low 32 bits of a long read as a two's-complement int. */
module JavaInt {
  const TWO_32: int := 0x1_0000_0000
  const MIN_INT: int := -0x8000_0000
  const MAX_INT: int := 0x7FFF_FFFF

  function IntValue(x: int): (r: int)
    ensures MIN_INT <= r <= MAX_INT
    ensures (x - r) % TWO_32 == 0
  {
    var low := x % TWO_32;
    if low <= MAX_INT then low else low - TWO_32
  }

  /** A value that fits in an int is kept as it is. */
  lemma IntValueOfInt(x: int)
    requires MIN_INT <= x <= MAX_INT
    ensures IntValue(x) == x
  {
  }

  /** 2^31 wraps around to the smallest int. */
  lemma IntValueWraps()
    ensures IntValue(MAX_INT + 1) == MIN_INT
  {
  }
}
