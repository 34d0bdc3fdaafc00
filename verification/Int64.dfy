/** Signed 64-bit integers. */
module Int64 {

  const MAX_INT64 := 0x7fff_ffff_ffff_ffff
  const MODULUS := 0x1_0000_0000_0000_0000

  predicate IsInt64(x: int) {
    -0x8000_0000_0000_0000 <= x <= MAX_INT64
  }

  /** What a sum or a product leaves in a signed 64-bit integer. */
  function Wrap64(x: int): int {
    if IsInt64(x) then x else (x + 0x8000_0000_0000_0000) % MODULUS - 0x8000_0000_0000_0000
  }
}
