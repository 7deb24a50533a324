/** `Option` stands for a JavaScript value that may be `undefined`, `Result`
    for a step that either yields a value or stops with an error. */
module Wrappers {

  datatype Option<+T> = None | Some(value: T)

  datatype Result<+R, +E> = Success(value: R) | Failure(error: E)
}
