/** Shared value types: optional values, fallible results, and machine integers. */
module Wrappers {

  datatype Option<+T> = None | Some(value: T)

  datatype Result<+T, +E> = Ok(value: T) | Err(error: E)

  const U64_LIMIT: int := 0x1_0000_0000_0000_0000
  const I64_LIMIT: int := 0x8000_0000_0000_0000

  type byte = x: int | 0 <= x < 0x100
  type u64 = x: int | 0 <= x < U64_LIMIT
  type i64 = x: int | -I64_LIMIT <= x < I64_LIMIT

  /** A 32-bit float by its bit pattern. */
  newtype Word = x: int | 0 <= x < 0x1_0000_0000

  /** The vector of one position in a hidden state, a key or a value. */
  type Row = seq<Word>

  function Min(a: int, b: int): int {
    if a < b then a else b
  }

  function Max(a: int, b: int): int {
    if a < b then b else a
  }
}
