/** Failure-carrying wrappers shared by every module of the model. */
module Common {

  datatype Option<T> = None | Some(value: T)

  /** An error value returned by a collaborator (backend, database, OS). Its text is opaque. */
  datatype Error = Error(message: string)

  /** The outcome of a call that returns either a value or an error. */
  datatype Result<T> = Success(value: T) | Failure(error: Error)

  /** A Go-style pair `(*T, error)` in which either half may be nil. */
  datatype Reply<T> = Reply(value: Option<T>, err: Option<Error>)

  /** Go's map index on a `map[string]string`: a missing key reads as the zero value "". */
  function Lookup(m: map<string, string>, key: string): string
  {
    if key in m then m[key] else ""
  }
}
