/** Fixed-width unsigned integers of the C++ sources, and an optional value. */
module Types {

  type uint8 = x: int | 0 <= x < 0x100
  type uint32 = x: int | 0 <= x < 0x1_0000_0000
  type uint64 = x: int | 0 <= x < 0x1_0000_0000_0000_0000

  /** 2^32: one past the largest uint32, the weight of the high word of a uint64. */
  const TWO_POW_32: nat := 0x1_0000_0000

  /** UINT32_MAX, the descriptor index allocator's "no index" sentinel. */
  const UINT32_MAX: uint32 := 0xFFFF_FFFF

  datatype Option<T> = None | Some(value: T)

  /** static_cast<uint32_t> of a uint64_t: keeps the low 32 bits. */
  function TruncateToUint32(x: uint64): (r: uint32)
    ensures x < TWO_POW_32 ==> r == x
    ensures (x - r) % TWO_POW_32 == 0
  {
    x % TWO_POW_32
  }
}
