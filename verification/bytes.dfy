/** Numbers below 256 and bytes. */
module Bytes {

  /** A number below 256 is the value of its byte. */
  lemma KeepsValue(x: nat)
    requires x < 256
    ensures (x as bv8) as int == x
  {
    if x < 128 {
      if x < 64 {
      } else {
      }
    } else {
      if x < 192 {
      } else {
      }
    }
  }

  lemma Same(x: nat, y: nat)
    requires x < 256 && y < 256 && x as bv8 == y as bv8
    ensures x == y
  {
    KeepsValue(x);
    KeepsValue(y);
  }
}
