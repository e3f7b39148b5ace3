/** Failure-carrying wrappers shared by the modules of this model. */
module Wrappers {

  /** A value that may be absent (a `null`/`undefined` in the storefront's code). */
  datatype Option<+T> = None | Some(value: T)

  /** The outcome of an operation that either yields a value or throws an error. */
  datatype Result<+T, +E> = Success(value: T) | Failure(error: E)
}

/** The guard every context hook of the storefront applies to what its provider supplies. */
module Hooks {
  import opened Wrappers

  /** `useContext` yields the provider's value, or nothing when the caller is not rendered inside
      the provider; the hook then throws `message` instead of returning a default. */
  function UseContext<T>(provided: Option<T>, message: string): (r: Result<T, string>)
    ensures r.Success? <==> provided.Some?
    ensures r.Success? ==> r.value == provided.value
    ensures r.Failure? ==> r.error == message
  {
    match provided
    case Some(v) => Success(v)
    case None => Failure(message)
  }
}
