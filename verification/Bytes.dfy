/** Numbers below 256 as bytes. */
module Bytes {
  lemma ByteOf(no: int)
    requires 0 <= no < 256
    ensures (no as bv8) as int == no
  {
  }
}
