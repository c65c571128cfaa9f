/** Shared value types: optional results, bytes and UUIDs. */
module Prelude {

  datatype Option<+T> = None | Some(value: T)

  datatype Result<+T> = Ok(value: T) | Err(error: string)

  /** One octet. */
  type byte = b: int | 0 <= b < 256

  /** A UUID, represented by its canonical text form: 36 characters, none of them a separator. */
  type Uuid = s: string | |s| == 36 && '|' !in s witness NIL_UUID

  const NIL_UUID: string := "00000000-0000-0000-0000-000000000000"

  /** Smallest value that no longer fits in an unsigned 64-bit word. */
  const TWO_64: nat := 0x1_0000_0000_0000_0000

  /** Smallest value that no longer fits in a signed 64-bit word. */
  const TWO_63: nat := 0x8000_0000_0000_0000

  function Max(a: int, b: int): int {
    if a > b then a else b
  }
}
