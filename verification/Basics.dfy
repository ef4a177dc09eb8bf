/** Small value types shared by every part of the model. */
module Basics {

  datatype Option<+T> = None | Some(value: T)

  /** A Go call that returns either a value or an error. Error texts are not modelled. */
  datatype Result<+T> = Ok(value: T) | Err

  function Max(a: int, b: int): int { if a < b then b else a }

  function Min(a: int, b: int): int { if a < b then a else b }
}
