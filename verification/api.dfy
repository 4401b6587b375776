/**
 * The backend calls as the pages see them: an awaited promise that either
 * resolves with a value or rejects with an error whose `message` may be empty or
 * missing (both modelled as the empty string).
 */
module Api {
  import opened Wrappers

  datatype Outcome<T> = Resolved(value: T) | Rejected(message: string)

  /** `err.message || fallback`: the error's own message unless it is falsy. */
  function ErrorText(message: string, fallback: string): (r: string)
    ensures message != "" ==> r == message
    ensures message == "" ==> r == fallback
    ensures fallback != "" ==> r != ""
  {
    if message != "" then message else fallback
  }

  /** Whether an error banner `{error && …}` renders: the error is set and is not
      the empty string, the only falsy string. */
  predicate Shown(error: Option<string>) {
    error.Some? && error.value != ""
  }
}
