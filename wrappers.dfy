/** Option and Result: absent values and the error paths of the source (a thrown
 *  Error or a rejected promise) as plain values. */
module Wrappers {
  datatype Option<T> = None | Some(value: T)
  {
    predicate IsSome() { this.Some? }
    function GetOr(default: T): T { if this.Some? then value else default }
  }

  /** `Err` carries the thrown value as JavaScript's `String()` prints it:
   *  `"Error: <message>"` for an `Error`, `"TypeError: <message>"` for a
   *  `TypeError`, the string itself for a thrown string. Messages the
   *  source builds by string concatenation are then exact. */
  datatype Result<T> = Ok(value: T) | Err(error: string)
  {
    predicate IsOk() { this.Ok? }
  }
}
