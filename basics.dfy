/** Failure-carrying wrappers shared by every module of the model. */
module Basics {

  /** Rust's Option. */
  datatype Option<+T> = None | Some(value: T)

  /** Rust's Result. */
  datatype Result<+T, +E> = Ok(value: T) | Err(error: E)

  /** The outcome of running a piece of code that may abort the process:
      either it returns a value, or it panics (an `unwrap`, `expect`,
      `panic!` or `todo!` that fires). */
  datatype Exec<+T> = Returns(value: T) | Panics(message: string)

  /** The 16-bit unsigned integers (Rust's u16). */
  type U16 = x: int | 0 <= x < 0x1_0000

  function Max(a: int, b: int): int { if a >= b then a else b }

  /** An account or split identifier. Its text is kept as read: parsing and
      formatting UUIDs belongs to a library outside this model. */
  type Uuid = string
}
