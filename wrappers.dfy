/** Option and Result values shared by the modules of the model. */
module Wrappers {
  datatype Option<T> = None | Some(value: T)

  /** The outcome of an operation that can fail; `Failure` stands for the Java exception. */
  datatype Result<T, E> = Success(value: T) | Failure(error: E) {
    predicate IsFailure() {
      Failure?
    }
  }
}
