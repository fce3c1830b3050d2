/** The vocabulary shared by the two chat route handlers: JSON reply bodies,
    HTTP status codes, caught exceptions, provider outcomes and the
    credential check. */
module Api {
  import opened Wrappers

  /** Status codes of section 15 of RFC 9110, and 429 of section 4 of RFC 6585. */
  const StatusOk := 200
  const StatusBadRequest := 400
  const StatusForbidden := 403
  const StatusMethodNotAllowed := 405
  const StatusTooManyRequests := 429
  const StatusInternalError := 500
  const StatusServiceUnavailable := 503

  /** A JSON body built with `NextResponse.json`. */
  datatype Body =
    | Answer(text: string)      // { text, success: true }
    | BareText(text: string)    // { text }
    | ErrorBody(error: string)  // { error }

  datatype Reply = Reply(status: int, body: Body)

  /** An exception caught by a handler, reduced to the properties the
      handlers read: `message`, a numeric `status` and `code`, each possibly
      absent (a non-numeric `status` never equals a number, so it is `None`). */
  datatype Thrown = Thrown(message: Option<string>, status: Option<int>, code: Option<string>)

  /** One call of the text-generation provider: the text of `response.text()`,
      or the exception raised anywhere in `generateContent` or `text()`. */
  datatype ProviderOutcome = Produced(text: string) | Raised(error: Thrown)

  /** `!process.env.GEMINI_API_KEY` is false: the variable is set and non-empty. */
  predicate KeyConfigured(apiKey: Option<string>) {
    apiKey.Some? && apiKey.value != ""
  }
}
