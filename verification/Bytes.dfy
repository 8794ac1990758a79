/** Numbers as bytes. */
module Bytes {
  lemma ByteOfNat(n: nat)
    requires n < 256
    ensures (n as bv8) as int == n
  {
  }
}
