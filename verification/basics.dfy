/** What several components use: optional values, bytes as numbers, and 32-bit wrap-around. */
module Basics {

  datatype Option<+T> = None | Some(value: T)

  type byte = x: int | 0 <= x < 256

  const TWO32 := 0x1_0000_0000

  /** The value of the low 32 bits, read as a signed integer. */
  function Low32(v: int): (r: int)
    ensures -0x8000_0000 <= r < 0x8000_0000
    ensures r == v <==> IsInt32(v)
  {
    var m := v % TWO32;
    if m < 0x8000_0000 then m else m - TWO32
  }

  predicate IsInt32(v: int) {
    -0x8000_0000 <= v < 0x8000_0000
  }
}
