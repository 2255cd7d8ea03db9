/** Optional values and the outcome of a call that may throw. */
module Wrappers {

  datatype Option<+T> = None | Some(value: T)

  /** A call into code outside the model: it returns a value or throws an error
      whose `message` may be empty. */
  datatype Outcome<+T> = Ok(value: T) | Threw(message: string)

  /** `err.message || fallback`: an empty message falls back to the default text. */
  function ErrorText(message: string, fallback: string): (r: string)
    ensures message != [] ==> r == message
    ensures message == [] ==> r == fallback
  {
    if message != [] then message else fallback
  }
}
