/** The error tags of the HTTP client. The client's I/O is not part of this
    model; only the errors it can report to the login model are. */
module ApiClient {

  /** `APIError`. */
  datatype ApiError = Unknown | InvalidUrl | InvalidResponse
}
