/** Identifiers and the result type shared by the fallible operations. */
module Ids {
  datatype StageId = StageId(name: string)

  datatype Result<+T, +E> = Ok(value: T) | Err(error: E)

  datatype Option<+T> = None | Some(value: T)
}
