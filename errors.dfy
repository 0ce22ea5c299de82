/** The exceptions of the localization importer that the model keeps, and the
    failure-compatible wrappers through which an exception stops the computation
    that raised it. */
module Errors {

  /** An exception raised by the importer. */
  datatype Error =
    /** `NotImplementedError` from a locale/region guard. */
    | Unsupported(locale: string, region: string)
    /** The localization file of a locale could not be parsed. */
    | DocumentMissing(locale: string, file: string)
    /** `fetchall` on a PostgreSQL cursor that executed no query. */
    | NoResultsToFetch
    /** `IndexError`: the entry found for this key has no second child. */
    | MalformedEntry(key: string)
  {
    /** An exception caused by the localization files rather than by the
        arguments of a call. */
    predicate FromFiles() {
      DocumentMissing? || MalformedEntry?
    }
  }

  /** A value, or the exception that prevented it. */
  datatype Result<+T> = Success(value: T) | Failure(error: Error) {
    predicate IsFailure() {
      Failure?
    }

    function PropagateFailure<U>(): Result<U>
      requires Failure?
    {
      Failure(error)
    }

    function Extract(): T
      requires Success?
    {
      value
    }
  }

  /** Completion of a step that has no value, or the exception it raised. */
  datatype Outcome = Pass | Fail(error: Error) {
    predicate IsFailure() {
      Fail?
    }

    function PropagateFailure(): Outcome
      requires Fail?
    {
      this
    }
  }
}
