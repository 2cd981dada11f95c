/** The result of an operation that may fail with a message. */
module Result {
  datatype Result<+T> = Ok(value: T) | Err(error: string)
}
