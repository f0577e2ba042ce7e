/** Optional values and results: `undefined`-able fields and success-or-error outcomes. */
module Optional {

  /** A value that may be absent, as an optional field or an `undefined` lookup. */
  datatype Option<T> = None | Some(value: T)

  /** Either a value or an error, as a schema's `safeParse` returns. */
  datatype Result<T, E> = Success(value: T) | Failure(error: E)
}
