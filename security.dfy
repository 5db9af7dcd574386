/** Sanitising of thrown values before they reach the user. */
module Security {

  /** A thrown JavaScript value: either something that is not an `Error`
      instance, or an `Error` carrying a message. */
  datatype Thrown = NotAnError | Error(message: string)

  const UNKNOWN_ERROR: string := "Unknown error"

  /** An `Error` counts as informative only when its message is non-empty
      (an empty string is falsy). */
  predicate Informative(error: Thrown) {
    error.Error? && error.message != ""
  }

  /** `sanitizeError`: a generic message in place of the error's details. */
  function SanitizeError(error: Thrown, fallbackMessage: string): (r: string)
    ensures Informative(error) ==> r == fallbackMessage
    ensures error.NotAnError? ==> r == UNKNOWN_ERROR
    ensures error == Error("") ==> r == UNKNOWN_ERROR
    ensures r == fallbackMessage || r == UNKNOWN_ERROR
  {
    if Informative(error) then fallbackMessage else UNKNOWN_ERROR
  }

  /** The result never carries the error's own message, unless that message
      happens to be one of the two generic ones. */
  lemma NoLeak(error: Thrown, fallbackMessage: string)
    requires error.Error?
    requires error.message != fallbackMessage && error.message != UNKNOWN_ERROR
    ensures SanitizeError(error, fallbackMessage) != error.message
  {
  }

  /** Two errors with informative messages are indistinguishable after
      sanitising: the result depends on the message only through whether it
      is empty. */
  lemma MessageIndependent(e1: Thrown, e2: Thrown, fallbackMessage: string)
    requires e1.Error? && e2.Error?
    requires (e1.message == "") == (e2.message == "")
    ensures SanitizeError(e1, fallbackMessage) == SanitizeError(e2, fallbackMessage)
  {
  }
}
