// The two result shapes used throughout: a value that may be absent, and a
// value or the reason there is none.
module Options {

  datatype Option<+T> = None | Some(value: T)

  datatype Result<+T, +E> = Ok(value: T) | Err(error: E)
}
