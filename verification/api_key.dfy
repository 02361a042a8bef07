/** The `X-Api-Key` middleware. The header value is given as a string; an
    absent header reads as the empty string, as `Header.Get` returns. */
module ApiKey {

  /** What the middleware does with a request: reply with an error status
      and text, or hand the request on to the wrapped handler. */
  datatype Decision = Reject(status: int, message: string) | CallNext

  /** `http.StatusUnauthorized`. */
  const Unauthorized := 401

  /** `APIkey(validKey)` applied to a request carrying `header`. */
  function Gate(validKey: string, header: string): (d: Decision)
    ensures d == Reject(Unauthorized, "API Key Required") <==> header == ""
    ensures d == Reject(Unauthorized, "Invalid API Key") <==> header != "" && header != validKey
    ensures d == CallNext <==> header != "" && header == validKey
  {
    if header == "" then Reject(Unauthorized, "API Key Required")
    else if header != validKey then Reject(Unauthorized, "Invalid API Key")
    else CallNext
  }

  /** With an empty configured key no request ever reaches the handler. */
  lemma EmptyKeyLocksOut(header: string)
    ensures Gate("", header).Reject?
    ensures Gate("", header).status == Unauthorized
  {
  }

  /** Exactly one header value passes a non-empty configured key: the key. */
  lemma OnlyTheKeyPasses(validKey: string, h1: string, h2: string)
    requires Gate(validKey, h1) == CallNext && Gate(validKey, h2) == CallNext
    ensures h1 == h2 == validKey && validKey != ""
  {
  }
}
