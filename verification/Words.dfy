/** Sums of 32-bit words. */
module Words {
  /** Addition modulo 2^32. */
  function Add(x: bv32, y: bv32): bv32 { x + y }

  function Add3(x: bv32, y: bv32, z: bv32): bv32 { Add(Add(x, y), z) }

  lemma AddLaws(x: bv32, y: bv32, z: bv32)
    ensures Add(Add(x, y), z) == Add(x, Add(y, z))
    ensures Add(x, y) == Add(y, x)
  {
  }
}
