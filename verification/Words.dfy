// The machine words of the modelled code.
module Words {
  const I64_MIN: int := -0x8000_0000_0000_0000
  const U32: nat := 0x1_0000_0000
  const U64: nat := 0x1_0000_0000_0000_0000
  const MAX_U32: nat := U32 - 1
  const MAX_U64: nat := U64 - 1
}
