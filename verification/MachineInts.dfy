/** The fixed-width integers of the program, as ranges of int. */
module MachineInts {
  const TWO_32: nat := 0x1_0000_0000
  const TWO_64: nat := 0x1_0000_0000_0000_0000

  type byte = x: int | 0 <= x < 256
  type uint32 = x: int | 0 <= x < 0x1_0000_0000
  type int64 = x: int | -0x8000_0000_0000_0000 <= x < 0x8000_0000_0000_0000

  /** The conversion of an int64 to uint64. */
  function Uint64(key: int64): (u: nat)
    ensures u < TWO_64
    ensures u == key || u == key + TWO_64
  {
    if key >= 0 then key else key + TWO_64
  }
}
