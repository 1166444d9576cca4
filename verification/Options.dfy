// Shared optional and fallible values.
module Options {
  datatype Option<+T> = None | Some(value: T)

  // Every error of the appliance is a message; only whether an operation failed matters here.
  datatype Result<+T> = Ok(value: T) | Err
}
