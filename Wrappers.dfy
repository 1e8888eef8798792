/** Failure-carrying wrappers and machine-integer ranges shared by the
    whole model. */
module Wrappers {

  /** Rust's Option; usable with `:-` like Rust's `?`. */
  datatype Option<+T> = None | Some(value: T) {
    predicate IsFailure() {
      None?
    }

    function PropagateFailure<U>(): Option<U>
      requires None?
    {
      None
    }

    function Extract(): T
      requires Some?
    {
      value
    }
  }

  /** The result of a Rust call that may panic: an `expect`/`unwrap` on
      a value it did not check first ends the task with a panic. */
  datatype Outcome<+T> = Returned(value: T) | Panicked

  const U32_LIMIT: int := 0x1_0000_0000
  const U64_LIMIT: int := 0x1_0000_0000_0000_0000

  type U32 = n: int | 0 <= n < U32_LIMIT
  type U64 = n: int | 0 <= n < U64_LIMIT
}
