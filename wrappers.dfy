/** Small helper datatypes shared by the modules of this model. */
module Wrappers {

  /** An optional value: a JavaScript `null`/`undefined` or a value that is present. */
  datatype Option<+T> = None | Some(value: T)

  function Min(a: int, b: int): int
  {
    if a <= b then a else b
  }

  function Max(a: int, b: int): int
  {
    if a <= b then b else a
  }
}
