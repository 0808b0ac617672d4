// Shared value types and machine-integer bounds.

module Wrappers {

  datatype Option<+T> = None | Some(value: T)

  const INT64_MAX: int := 0x7FFF_FFFF_FFFF_FFFF
  const INT64_MIN: int := -0x8000_0000_0000_0000
  const UINT64_MAX: int := 0xFFFF_FFFF_FFFF_FFFF

  // Every value stored in one of these types is checked to be in range, so an
  // int64 subtraction that could overflow does not verify.
  type int64 = x: int | INT64_MIN <= x <= INT64_MAX
  type uint64 = x: int | 0 <= x <= UINT64_MAX
  type uint32 = x: int | 0 <= x <= 0xFFFF_FFFF

  function Max(a: int, b: int): (m: int)
    ensures m >= a && m >= b && (m == a || m == b)
  {
    if a >= b then a else b
  }

  function Min(a: int, b: int): (m: int)
    ensures m <= a && m <= b && (m == a || m == b)
  {
    if a <= b then a else b
  }

  function Flatten<T>(blocks: seq<seq<T>>): seq<T> {
    if blocks == [] then [] else Flatten(blocks[..|blocks| - 1]) + blocks[|blocks| - 1]
  }
}
