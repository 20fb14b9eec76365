/** Result types shared by every module. */
module Wrappers {

  datatype Option<+T> = None | Some(value: T)

  /** `Ok` is a committed outcome, `Err` an exception or error return. */
  datatype Result<+T, +E> = Ok(value: T) | Err(error: E)

  function Failure<T, E>(r: Result<T, E>): Option<E> {
    match r
    case Ok(_) => None
    case Err(e) => Some(e)
  }
}
