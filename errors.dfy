/** Results and the error kinds the account-state layer reports. */
module Errors {

  datatype Option<+T> = None | Some(value: T)

  /** A value or an error, usable with `:-` like Rust's `?`. */
  datatype Result<+T, +E> = Ok(value: T) | Err(error: E) {
    predicate IsFailure() { Err? }

    function PropagateFailure<U>(): Result<U, E>
      requires Err?
    {
      Err(error)
    }

    function Extract(): T
      requires Ok?
    {
      value
    }
  }

  /** The host runtime's generic program errors used by this layer. */
  datatype ProgramError =
    | InvalidArgument
    | InvalidAccountData
    | UninitializedAccount

  /** The exchange's own errors for order-slab operations. */
  datatype DexError =
    | InvalidOrderIndex
    | UserAccountFull
    | OrderNotFound
}
