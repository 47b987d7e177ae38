/** Option and Result, the two shapes the model uses for "maybe absent" and "may fail". */
module Wrappers {

  datatype Option<+T> = None | Some(value: T)

  /** The source's thrown errors; each carries the failing collaborator. */
  datatype Fault =
    | ExternalServiceError  // a table read through the sheets client failed
    | MalformedInput        // a request field the handler rejects

  datatype Result<+T> = Ok(value: T) | Err(fault: Fault)
}
