/** The exceptions the OAuth session and the field-holder memento raise or let through, as values. */
module Errors {

  datatype Error =
    | ArgumentNull(name: string)            // ArgumentNullException
    | NullReference                         // NullReferenceException on a null Uri or a disposed memento
    | DuplicateKey(key: string)             // ArgumentException of Dictionary.Add
    | KeyNotFound(key: string)              // KeyNotFoundException of a dictionary indexer
    | InvalidUri                            // UriFormatException of `new Uri(...)`
    | CertificateUnavailable                // the RSA-SHA1 certificate cannot be loaded or unlocked
    | HttpError(status: int)                // WebException carrying an HTTP response
    | TransportError                        // any other failure of a send
    | RequestTokenNotSet                    // "The request token is not set"
    | RequestTokenAndVerifierNotSet         // "The request token and verifier were not set"
    | ServiceNotAvailable(cause: Error)     // NotSupportedException("Service is not available: ...")
    | NotAuthorized                         // "Not authorized"

  /** The HTTP status code 401 (HttpStatusCode.Unauthorized). */
  const UNAUTHORIZED: int := 401
}
