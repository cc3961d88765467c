/** Failure-aware values shared by the whole model. */
module Wrappers {

  /** A value that may be absent (`undefined` in the resolvers). */
  datatype Option<+T> = None | Some(value: T)

  /** An error thrown by the storage client. Its contents are opaque: when and
      why the storage fails is not part of this model. */
  datatype StoreError = StoreError(message: string)

  /** The outcome of a storage call, or of a GraphQL field: a value, or the
      error the call threw. */
  datatype Result<+T> = Ok(value: T) | Err(error: StoreError)
}
