/** Failure-carrying results for the operations of the cube model that throw. */
module Wrappers {

  datatype Option<+T> = None | Some(value: T)

  /** `Failure` carries the message of the exception the source throws. */
  datatype Result<+T> = Success(value: T) | Failure(message: string)
}
