/** The value of a step, or what made it fail. */
module Results {
  datatype Result<+T, +E> = Ok(value: T) | Err(error: E)
}
