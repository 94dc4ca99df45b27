/** Result types shared by the components. */
module Wrappers {

  /** An optional id. */
  datatype Maybe = None | Some(value: nat)

  datatype Result<T, E> = Ok(value: T) | Err(error: E)
}
