/** Failure-carrying datatypes shared by every module of the model.
    `Option` stands for a TypeScript `T | undefined | null`, `Result` for a
    call that either returns a value or throws, `Outcome` for a check that
    either passes or throws. */
module Wrappers {

  datatype Option<+T> = None | Some(value: T) {
    function GetOr(default: T): T {
      match this
      case Some(v) => v
      case None => default
    }
  }

  datatype Result<+T, +E> = Ok(value: T) | Err(error: E) {
    predicate IsOk() { Ok? }
  }

  datatype Outcome<+E> = Pass | Fail(error: E)
}
