/** Small value types shared by the models of the individual components. */
module Common {

  datatype Option<+T> = None | Some(value: T)

  /** The exceptions of a component become the Err case of its results. */
  datatype Result<+T, +E> = Ok(value: T) | Err(error: E)
}
