/** The two outcome shapes the model uses: an optional JSON member or stored value,
    and the result of a call that either answers or throws. */
module Wrappers {
  datatype Option<+T> = None | Some(value: T)

  datatype Result<+T, +E> = Ok(value: T) | Err(error: E)
}
