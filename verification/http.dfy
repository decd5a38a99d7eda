/** The outcome of a request handler: a response body, or an HTTP error raised at one named place. */
module Http {

  /** One constructor per `raise HTTPException(...)` site of the modelled handlers. */
  datatype Reason =
    | EmptyEmail              // login: email empty or whitespace only
    | UpstreamUnreachable     // login: the HR directory could not be reached
    | UpstreamRejected        // login: the HR directory answered with a non-200 status
    | MissingFilteredResumes  // login: the 200 body has no `filteredResumes` key
    | NoCandidateFound        // login: `filteredResumes` is empty
    | MissingEssentialFields  // login: mapped `email` or `candidate_id` missing or empty
    | StoreFailed             // login: the insert returned no row
    | CandidateNotFound       // details lookup: no row for the candidate
    | NoTestResults           // results lookup: no row for the candidate
    | TestNotFound            // fetch test: no question set with that id
    | InvalidExpiry           // fetch test: `expires_at` does not parse
    | TestExpired             // fetch test: the set has expired
    | NoQuestions             // fetch test: the set has no questions

  datatype HttpError = HttpError(status: int, reason: Reason)

  datatype Outcome<+T> = Ok(value: T) | Err(error: HttpError)

  /** The fixed status code of each raise site; an upstream rejection re-raises the
      upstream's own status, so it has none. */
  function StatusOf(reason: Reason): (code: int)
    requires reason != UpstreamRejected
    ensures 400 <= code <= 599
  {
    match reason
    case EmptyEmail => 400
    case UpstreamUnreachable => 503
    case MissingFilteredResumes => 422
    case NoCandidateFound => 404
    case MissingEssentialFields => 422
    case StoreFailed => 500
    case CandidateNotFound => 404
    case NoTestResults => 404
    case TestNotFound => 404
    case InvalidExpiry => 500
    case TestExpired => 410
    case NoQuestions => 404
  }

  /** The error raised at a site with a fixed status code. */
  function Fail<T>(reason: Reason): (r: Outcome<T>)
    requires reason != UpstreamRejected
    ensures r.Err? && r.error.reason == reason
    ensures 400 <= r.error.status <= 599
  {
    Err(HttpError(StatusOf(reason), reason))
  }
}
