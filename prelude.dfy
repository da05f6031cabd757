/** Fixed-width integers and small helpers shared by every module of the model. */
module Prelude {

  /** Rust's `u8`. */
  type uint8 = x: int | 0 <= x < 0x100

  /** Rust's `u16`. */
  type uint16 = x: int | 0 <= x < 0x1_0000

  function Min(a: int, b: int): int { if a <= b then a else b }

  function Max(a: int, b: int): int { if a <= b then b else a }

  /** What an `as u8` cast keeps of a non-negative value: its low eight bits. */
  function TruncateToU8(x: nat): (r: uint8)
    ensures x < 0x100 ==> r == x
  {
    x % 0x100
  }

  /** Rust's `Option`. */
  datatype Option<+T> = None | Some(value: T)
}
