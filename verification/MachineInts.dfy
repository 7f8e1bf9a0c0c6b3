/** The 64-bit integers of the program: the signed range, and the modulus at which arithmetic wraps. */
module MachineInts {
  const INT64_MAX := 0x7fff_ffff_ffff_ffff
  const INT64_MIN := -0x8000_0000_0000_0000
  const TWO_64: nat := 0x1_0000_0000_0000_0000
}
