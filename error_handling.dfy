/**
 * Error normalisation: every thrown value becomes an `APIError`, and only some
 * failures are worth retrying.
 */
module ErrorHandling {
  import opened Wrappers
  import opened Strings

  /** `APIError`: a message, and for failed HTTP responses the status and its text. */
  datatype APIError = APIError(message: string, status: Option<int>, statusText: Option<string>)

  /** A thrown value: an `APIError`, another `Error` (with its `name`, its `message` and
      whether it is a `TypeError`), or something that is not an `Error` at all. */
  datatype Thrown =
    | Api(err: APIError)
    | Failure(name: string, message: string, isTypeError: bool)
    | NotAnError

  const UnknownError := "An unknown error occurred"

  /** The `name` of a thrown `Error`; an `APIError` is named "APIError". */
  function ErrorName(e: Thrown): Option<string>
  {
    match e
    case Api(_) => Some("APIError")
    case Failure(name, _, _) => Some(name)
    case NotAnError => None
  }

  /** `handleAPIError`. */
  function HandleApiError(e: Thrown): APIError
  {
    match e
    case Api(a) => a
    case Failure(_, message, _) => APIError(message, None, None)
    case NotAnError => APIError(UnknownError, None, None)
  }

  /** `getErrorMessage`. */
  function GetErrorMessage(e: Thrown): string
  {
    match e
    case Api(a) => a.message
    case Failure(_, message, _) => message
    case NotAnError => UnknownError
  }

  /** An `APIError` is kept as it is; anything else becomes one without a status, keeping
      an `Error`'s message. Normalising twice is normalising once, and `getErrorMessage`
      is the message of the normalised error. */
  lemma NormaliseAgrees(e: Thrown)
    ensures e.Api? ==> HandleApiError(e) == e.err
    ensures !e.Api? ==> HandleApiError(e).status.None? && HandleApiError(e).statusText.None?
    ensures e.Failure? ==> HandleApiError(e) == APIError(e.message, None, None)
    ensures e.NotAnError? ==> HandleApiError(e) == APIError(UnknownError, None, None)
    ensures HandleApiError(Api(HandleApiError(e))) == HandleApiError(e)
    ensures GetErrorMessage(e) == HandleApiError(e).message
    ensures GetErrorMessage(Api(HandleApiError(e))) == GetErrorMessage(e)
  {
  }

  /** `isNetworkError`: a `TypeError` whose message mentions "fetch". */
  predicate IsNetworkError(e: Thrown)
  {
    e.Failure? && e.isTypeError && Contains(e.message, "fetch")
  }

  /** `shouldRetry`: an `APIError` by a truthy status, anything else by `isNetworkError`. */
  predicate ShouldRetry(e: Thrown)
  {
    match e
    case Api(a) => (match a.status case Some(s) => (if s != 0 then s >= 500 else false) case None => false)
    case _ => IsNetworkError(e)
  }

  /** An `APIError` is retried exactly for a 5xx-or-above status: never for 4xx and never
      without a status. Any other value is retried exactly when "fetch" occurs in the
      message of a `TypeError`. */
  lemma ShouldRetryCases(e: Thrown)
    ensures e.Api? ==> (ShouldRetry(e) <==> e.err.status.Some? && e.err.status.value >= 500)
    ensures !e.Api? ==> (ShouldRetry(e) <==>
      e.Failure? && e.isTypeError && exists i :: OccursAt(e.message, "fetch", i))
  {
    if e.Failure? {
      ContainsIff(e.message, "fetch");
    }
  }
}
