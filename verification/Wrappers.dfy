/** Success or failure, and presence or absence: the shapes Go spells as (value, error) and nil. */
module Wrappers {

  datatype Option<+T> = None | Some(value: T)

  datatype Result<+T, +E> = Ok(value: T) | Err(error: E)
}
