/** Failure-carrying values shared by the chunk planner and the upload protocol. */
module Results {

  /** An exception raised by the storage client or by reading the uploaded file. */
  datatype Error = Error(message: string)

  /** Either a value or the exception that was thrown instead of producing it. */
  datatype Result<+T> = Ok(value: T) | Err(error: Error)

  datatype Option<+T> = None | Some(value: T)
}
