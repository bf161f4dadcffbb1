/** The machine integers of the program, as ranges of the unbounded `int`. */
module Numbers {
  const U16_BOUND: int := 0x1_0000
  const U32_BOUND: int := 0x1_0000_0000
  const U64_BOUND: int := 0x1_0000_0000_0000_0000
  const I64_BOUND: int := 0x8000_0000_0000_0000

  type byte = n: int | 0 <= n < 256
  type u16 = n: int | 0 <= n < U16_BOUND
  type u32 = n: int | 0 <= n < U32_BOUND
  type u64 = n: int | 0 <= n < U64_BOUND
  type i64 = n: int | -I64_BOUND <= n < I64_BOUND

  type Bytes = seq<byte>

  function Min(a: int, b: int): int {
    if a <= b then a else b
  }

  function Max(a: int, b: int): int {
    if a <= b then b else a
  }
}
