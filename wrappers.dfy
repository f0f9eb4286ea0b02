/** Option for Java's nullable references, and Result for the exceptions the service raises. */
module Wrappers {

  /** None stands for Java's null. */
  datatype Option<+T> = None | Some(value: T)

  /** The exceptions of the core, as values. */
  datatype Error =
    | NullArgument(name: string)                            // ValidatorUtils.rejectIfNull(name, ...)
    | Validation(message: string)                           // ValidationException
    | Unsupported(message: string)                          // UnsupportedOperationException
    | DocumentNotFound(indexName: string, indexDocId: string) // the index backend's not-found error
    | ContentNotFound(contentId: Option<string>)            // the storage backend cannot read this id

  /** The outcome of an operation that may throw. */
  datatype Result<+T> = Success(value: T) | Failure(error: Error)
}
