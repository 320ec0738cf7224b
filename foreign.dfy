/** Library code the OAuth session calls but whose source is not part of this
    model. Each is a total function chosen by the environment. */
module Foreign {
  import opened Wrappers
  import opened Parameters

  datatype Platform = Platform(
    /** The default string comparer of `SortedDictionary<string, object>`. */
    less: (string, string) -> bool,
    /** `uri.Normalize().ToString()` (an extension method). */
    normalizeUri: string -> string,
    /** Base64 of HMAC-SHA1 over the UTF-8 bytes of (key, data). */
    hmacSha1: (string, string) -> string,
    /** Base64 of the RSA-SHA1 signature of `data` with the private key of the
        certificate file `path` unlocked by `password`; None when the certificate
        cannot be loaded. */
    rsaSha1: (string, string, string) -> Option<string>,
    /** `uri.ExtendQuery(parameters)` (an extension method). */
    extendQuery: (string, map<string, Value>) -> string,
    /** A token response body decoded into its parameters: `Replace("+", " ")`,
        `Uri.UnescapeDataString`, `UriBuilder.Query` and `QueryToDictionary`. */
    parseResponse: string -> map<string, string>
  )
}
