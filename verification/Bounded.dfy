/** Fixed-width integers of the wire format and of the two implementations, and the
    operators whose overflow behaviour matters. */
module Bounded {
  const TWO_16: int := 0x1_0000
  const TWO_31: int := 0x8000_0000
  const TWO_32: int := 0x1_0000_0000
  const TWO_64: int := 0x1_0000_0000_0000_0000

  type Byte = n: int | 0 <= n < 0x100
  type U32 = n: int | 0 <= n < TWO_32
  type U64 = n: int | 0 <= n < TWO_64

  type Bytes = seq<Byte>

  datatype Option<+T> = None | Some(value: T)

  /** `n as u32` in Rust, `uint32(n)` in Go: keep the low 32 bits. */
  function CastU32(n: nat): U32 {
    n % TWO_32
  }

  function WrappingAdd(a: U32, b: U32): U32 {
    (a + b) % TWO_32
  }

  /** Go's `-` on uint32, and Rust's `-` on u32 in a release build. */
  function WrappingSub(a: U32, b: U32): U32 {
    (a - b) % TWO_32
  }

  function SaturatingSub(a: U32, b: U32): U32 {
    if b <= a then a - b else 0
  }
}
