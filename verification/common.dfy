/** Types shared by every part of the model. */
module Common {

  /** A value that may be absent: a JSON body field that was not sent, a header that is missing. */
  datatype Option<+T> = None | Some(value: T)

  /** The outcome of a database operation: the new collection, or the reason it was refused. */
  datatype Result<+T, +E> = Ok(value: T) | Err(error: E)

  /** A document id (`_id`), assigned when a document is created. */
  type Id = nat

  /** Why the database refused a write. */
  datatype DbError =
    | ValidationError(path: string)   // a `required` validator failed on this path
    | DuplicateKey(path: string)      // a unique index already holds this value

  /** Mongoose's `required` validator on a String path: absent and empty strings fail. */
  predicate RequiredString(v: Option<string>) {
    v.Some? && v.value != ""
  }

  /** Whether the database answers; every Mongoose call of a request rejects when it does not. */
  datatype Backend = Reachable | Unreachable
}
