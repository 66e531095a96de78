/** Types shared by the models: optional values, results, and the errors the volume code returns. */
module Common {

  datatype Option<+T> = None | Some(value: T)

  datatype Result<+T, +E> = Ok(value: T) | Err(error: E)

  datatype FsError = Invalid | Io | QuotaExceeded | FileTooBig

  newtype byte = x: int | 0 <= x < 256

  function Min(a: int, b: int): int { if a < b then a else b }

  function Max(a: int, b: int): int { if a < b then b else a }
}
