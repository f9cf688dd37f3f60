/** Bytes and the numbers they stand for. */
module Bytes {

  lemma NextByte(b: bv8)
    requires b as nat < 255
    ensures (b + 1) as nat == b as nat + 1
  {
  }

  /** The byte of value `x`; the recursion keeps the proof away from integer-to-word conversions. */
  function ToByte(x: nat): (b: bv8)
    requires x < 256
    ensures b as nat == x
  {
    if x == 0 then 0 else NextByte(ToByte(x - 1)); ToByte(x - 1) + 1
  }

  lemma SameByte(a: bv8, b: bv8)
    requires a as nat == b as nat
    ensures a == b
  {
  }

  lemma ToByteOfValue(b: bv8)
    ensures ToByte(b as nat) == b
  {
    SameByte(ToByte(b as nat), b);
  }
}
