# OAuth 1.0a session and field-holder memento of Greenshot

This project models two parts of Greenshot in Dafny and proves properties of
the model.

**`OAuthSession`** is the OAuth 1.0a client (RFC 5849) that Greenshot's upload
plugins share. It does the following:

- it signs a parameter dictionary: it injects `oauth_version`, `oauth_nonce`,
  `oauth_timestamp`, `oauth_signature_method` and `oauth_consumer_key`, then
  `oauth_callback`, `oauth_verifier` and `oauth_token` when they apply, and adds
  an HMAC-SHA1, PLAINTEXT or RSA-SHA1 `oauth_signature` over the signature base
  string;
- it sends a signed request, with the `oauth_` parameters in the
  `Authorization: OAuth` header and the other parameters in the query or in a
  multipart form;
- it runs the three legs of authorisation: request token, login dialog, access
  token;
- it retries a resource request once after an HTTP 401, having dropped the
  token and the injected parameters.

**`ChangeFieldHolderMemento`** is the editor's undo/redo record for one field of
a field holder.

How the model is laid out:

| file | module | what it holds |
|---|---|---|
| `wrappers.dfy` | `Wrappers` | `Option`, `Result` and `Outcome`; a thrown exception is a `Failure`/`Fail` value |
| `errors.dfy` | `Errors` | the exceptions the session throws or passes on |
| `strings.dfy` | `Strings` | joining and splitting strings |
| `percent_encoding.dfy` | `PercentEncoding` | `Uri.EscapeDataString`, and an unescaper used to state round trips |
| `parameters.dfy` | `Parameters` | the dictionaries as a `Dict` class with insertion-ordered entries; the sorted copy; the normalised parameter string |
| `foreign.dfy` | `Foreign` | library code whose source is not part of this model, as total functions chosen by the environment |
| `signing.dfy` | `Signing` | what `Sign` adds to the dictionary, as functions, with lemmas |
| `dispatch.dfy` | `Dispatch` | how `MakeRequest` splits the signed parameters, and the request it builds |
| `session.dfy` | `Session` | the `World` (random source, clock, server, login dialog) and the `OAuthSession` class |
| `memento.dfy` | `Memento` | the field holder and the memento |

The `World` object records a transcript of every exchange, labelled with the
protocol leg that sent it, and every login prompt shown. The session's methods
are specified against that transcript.

## Model

| member | source | states |
|---|---|---|
| Parameters.Dict.Add | GreenshotPlugin/OAuth/OAuthSession.cs:572-600 | `Dictionary.Add` appends the entry exactly when the key is absent (it throws otherwise), and the keys stay distinct |
| Parameters.Dict.Remove | GreenshotPlugin/OAuth/OAuthSession.cs:532-535 | `Dictionary.Remove` drops the entry with that key and keeps the rest in order, with distinct keys |
| Parameters.RemoveKeyMembers | GreenshotPlugin/OAuth/OAuthSession.cs:534 | an entry survives removal exactly when it is in the dictionary and has another key |
| Parameters.SortByKeyCorrect | GreenshotPlugin/OAuth/OAuthSession.cs:262 | the `SortedDictionary` copy is a permutation of the entries with strictly ascending keys |
| Parameters.SortedUnique | GreenshotPlugin/OAuth/OAuthSession.cs:262 | two key-sorted permutations of the same entries are equal, so the sorted copy is unique |
| Parameters.NormalizeOrderIndependent | GreenshotPlugin/OAuth/OAuthSession.cs:255-275 | the normalised parameter string depends on the dictionary's contents, not on its enumeration order |
| Parameters.NormalizeReadsBack | GreenshotPlugin/OAuth/OAuthSession.cs:255-275 | splitting the normalised string on '&' and '=' and unescaping gives exactly the string-valued entries, once each, in strictly ascending key order (for keys without '&' and '=') |
| Parameters.TextPairsMembers | GreenshotPlugin/OAuth/OAuthSession.cs:266-270 | only string values are written: a pair is written exactly when the dictionary holds that key with that string |
| Parameters.NormalizeAsWrittenAgrees | GreenshotPlugin/OAuth/OAuthSession.cs:257-274 | the normaliser as written returns "" for a null or empty dictionary, and `Normalize` whenever some value is a string |
| Parameters.NormalizeAsWrittenFails | GreenshotPlugin/OAuth/OAuthSession.cs:272 | the normaliser as written throws for a non-empty dictionary with no string value |
| Parameters.NormalizeNoText | GreenshotPlugin/OAuth/OAuthSession.cs:255-275 | the corrected normaliser gives "" for every dictionary without a string value, the case where the code as written throws |
| Parameters.NormalizeKeyCollision | GreenshotPlugin/OAuth/OAuthSession.cs:269 | keys are written unescaped, so the entry `a=1&b`→`2` gives the same string as `a`→`1`, `b`→`2` |
| PercentEncoding.EscapeAlphabet | GreenshotPlugin/OAuth/OAuthSession.cs:269 | escaped text holds only unreserved characters and `%HH` triplets, so it never contains '&', '=', ',' or '"' |
| PercentEncoding.EscapeIdentityIff | GreenshotPlugin/OAuth/OAuthSession.cs:269 | escaping leaves a string unchanged exactly when every character is unreserved |
| PercentEncoding.EscapeAppend | GreenshotPlugin/OAuth/OAuthSession.cs:269 | escaping distributes over concatenation |
| PercentEncoding.UnescapeEscape | GreenshotPlugin/OAuth/OAuthSession.cs:269 | unescaping undoes escaping (UTF-8 with `%HH` triplets) |
| PercentEncoding.EscapeInjective | GreenshotPlugin/OAuth/OAuthSession.cs:603 | different strings escape differently |
| Signing.Nonce | GreenshotPlugin/OAuth/OAuthSession.cs:292-296 | the nonce consists of unreserved characters only, so escaping leaves it unchanged |
| Signing.Timestamp | GreenshotPlugin/OAuth/OAuthSession.cs:281-286 | the timestamp consists of unreserved characters only, so escaping leaves it unchanged |
| Signing.ProtocolParametersContents | GreenshotPlugin/OAuth/OAuthSession.cs:572-600 | `Sign` injects the version "1.0", the nonce, the timestamp, the method name and the consumer key first; all injected keys are distinct `oauth_` keys other than `oauth_signature`, with string values |
| Signing.ProtocolParameterKeys | GreenshotPlugin/OAuth/OAuthSession.cs:572-600 | the injected keys, in order: the five fixed ones, then `oauth_callback` only for the request-token URL with a callback, `oauth_verifier` and `oauth_token` only when non-empty |
| Signing.ProtocolParameterValues | GreenshotPlugin/OAuth/OAuthSession.cs:589-600 | the callback, verifier and token are injected with the session's values |
| Signing.AddEachClash | GreenshotPlugin/OAuth/OAuthSession.cs:572-600 | a run of `Add`s of distinct keys is refused exactly when one key is already in the dictionary |
| Signing.SignSucceedsIff | GreenshotPlugin/OAuth/OAuthSession.cs:556-643 | `Sign` returns normally exactly when no injected key and no `oauth_signature` is already present and the signature can be computed |
| Signing.SignEffectErrors | GreenshotPlugin/OAuth/OAuthSession.cs:556-643 | `Sign` throws only for a null URI (exactly then: null reference), a key already present, or an RSA certificate that cannot be loaded |
| Signing.SignedEntries | GreenshotPlugin/OAuth/OAuthSession.cs:572-641 | after a normal return the dictionary is the caller's entries, then the injected ones, then the signature over both |
| Signing.SignFreshEffect | GreenshotPlugin/OAuth/OAuthSession.cs:572-641 | `Sign` on a new, empty dictionary cannot clash: it leaves the injected parameters, followed by the signature over them when it can be computed, and otherwise throws the signature's error |
| Signing.SignPassesWithoutVersionOrNonce | GreenshotPlugin/OAuth/OAuthSession.cs:572-573 | `Sign` returns normally only when `oauth_version` and `oauth_nonce`, its first two keys, were not in the dictionary |
| Signing.SignatureErrors | GreenshotPlugin/OAuth/OAuthSession.cs:601-641 | computing the signature fails only under RSA-SHA1, when the certificate cannot be used |
| Signing.SignEffectKeepsEntries | GreenshotPlugin/OAuth/OAuthSession.cs:572-641 | whether `Sign` returns or throws, the caller's entries stay first and the keys stay distinct |
| Signing.ServerRecomputesSignature | GreenshotPlugin/OAuth/OAuthSession.cs:563-641 | a receiver that drops `oauth_signature` gets back exactly the signed entries and recomputes the stored signature |
| Signing.PlaintextSignatureIsKey | GreenshotPlugin/OAuth/OAuthSession.cs:631-633 | under PLAINTEXT the signature is the signing key |
| Signing.SigningKeyReadsBack | GreenshotPlugin/OAuth/OAuthSession.cs:603 | the signing key splits at its one '&' into the escaped consumer secret and the escaped token secret (empty when unset) |
| Signing.SignatureBaseReadsBack | GreenshotPlugin/OAuth/OAuthSession.cs:563-601 | the base string splits into the method name, the escaped normalised URI and the escaped normalised parameters |
| Dispatch.SplitParameters | GreenshotPlugin/OAuth/OAuthSession.cs:663-680 | the loop builds the Authorization header from the `oauth_` entries and collects every other key with its first value |
| Dispatch.RequestParametersContents | GreenshotPlugin/OAuth/OAuthSession.cs:665-675 | the request parameters hold exactly the non-`oauth_` keys, each with the value it has in the dictionary |
| Dispatch.AuthorizationHeaderReadsBack | GreenshotPlugin/OAuth/OAuthSession.cs:663-680 | a receiver that splits the header on ',' and unescapes reads back each `oauth_` entry, in order |
| Dispatch.BuildRequestRoutes | GreenshotPlugin/OAuth/OAuthSession.cs:682-738 | the method is compared with GET, POST and PUT ignoring case; GET, or any call with content, puts the parameters in the query; POST or PUT without content sends them as a form to the URI as given; content and forms go out with POST; any other method without content sends a bare GET to the URI |
| Dispatch.LowerCaseMethodRoutes | GreenshotPlugin/OAuth/OAuthSession.cs:710 | a method named "post", with request parameters and no content, still sends them as a form |
| Dispatch.SignKeepsOtherEntries | GreenshotPlugin/OAuth/OAuthSession.cs:572-641 | `Sign` never changes the non-`oauth_` entries, whether it returns or throws |
| Dispatch.NonProtocolEntriesIdempotent | GreenshotPlugin/OAuth/OAuthSession.cs:524-535 | removing the `oauth_` entries a second time changes nothing |
| Dispatch.RsaSignatureEscapedTwice | GreenshotPlugin/OAuth/OAuthSession.cs:628 | under RSA-SHA1 a receiver that unescapes the header once reads the escaped Base64 signature, not the Base64 itself |
| Dispatch.ProtocolKeysPlain | GreenshotPlugin/OAuth/OAuthSession.cs:51-60 | the injected keys contain neither ',' nor '=', so the header reads back |
| Session.World.NextNonce | GreenshotPlugin/OAuth/OAuthSession.cs:292-296 | each call draws the next random number |
| Session.World.NextTimestamp | GreenshotPlugin/OAuth/OAuthSession.cs:281-286 | each call reads the clock once |
| Session.OAuthSession.constructor | GreenshotPlugin/OAuth/OAuthSession.cs:216-224 | GET for both token requests, HMAC-SHA1, automatic login; the field initialisers give the callback URL, verifier checking, title and browser size; no token |
| Session.OAuthSession.AddFixedParameters | GreenshotPlugin/OAuth/OAuthSession.cs:572-588 | the five fixed `Add`s, stopping at the first refused key; the nonce is drawn only once the version is in |
| Session.OAuthSession.AddVersionAndNonce | GreenshotPlugin/OAuth/OAuthSession.cs:572-573 | the first two `Add`s; the nonce is drawn exactly when the version was added, and the clock is read next exactly when neither key was refused |
| Session.OAuthSession.AddProtocolParameters | GreenshotPlugin/OAuth/OAuthSession.cs:572-600 | all of `Sign`'s `Add`s, equal to the run over `ProtocolParameters` |
| Session.OAuthSession.SignatureValue | GreenshotPlugin/OAuth/OAuthSession.cs:601-641 | the signature over the current entries, as `SignatureOf` defines it |
| Session.OAuthSession.Sign | GreenshotPlugin/OAuth/OAuthSession.cs:556-643 | null parameters throw; otherwise the dictionary and outcome are `SignEffect` for the nonce and clock drawn; nothing is sent |
| Session.OAuthSession.MakeRequest | GreenshotPlugin/OAuth/OAuthSession.cs:655-753 | null parameters and a null URI throw without sending; otherwise exactly one exchange is sent, carrying the header and routed parameters, and its body is returned |
| Session.OAuthSession.TokenRequest | GreenshotPlugin/OAuth/OAuthSession.cs:303-305 | a new dictionary is signed and, when signing succeeded, sent as one exchange of the leg; the result and the world are `TokenRequestStep` |
| Session.OAuthSession.GetRequestToken | GreenshotPlugin/OAuth/OAuthSession.cs:301-319 | the request-token leg: one signed request to the request-token URL, its answer handled by `ReceiveRequestToken`; the outcome, session and world are `RequestTokenStep` |
| Session.OAuthSession.ReceiveRequest | GreenshotPlugin/OAuth/OAuthSession.cs:306-317 | the response handling of `GetRequestTokenAsync`, equal to `ReceiveRequestToken` |
| Session.OAuthSession.GetAuthorizeToken | GreenshotPlugin/OAuth/OAuthSession.cs:325-359 | no token throws; else the login dialog is shown once with the authorisation link; the callback's token and verifier are taken; the token is returned unless a required verifier is missing; the result, session and world are `AuthorizeTokenStep` |
| Session.AuthorizationLink | GreenshotPlugin/OAuth/OAuthSession.cs:457-463 | a null callback URL or authorisation URL throws; otherwise a link is built |
| Session.OAuthSession.GetAccessToken | GreenshotPlugin/OAuth/OAuthSession.cs:365-393 | without a token or a required verifier it throws and sends nothing; otherwise one signed request, and the response's token and secret replace the session's; the result, session and world are `AccessTokenStep` |
| Session.OAuthSession.ReceiveAccess | GreenshotPlugin/OAuth/OAuthSession.cs:375-392 | the response handling of `GetAccessTokenAsync`, equal to `ReceiveAccessToken` |
| Session.OAuthSession.Authorize | GreenshotPlugin/OAuth/OAuthSession.cs:419-451 | clears the token, its secret and the verifier, then runs the three legs; the result, session and world are `AuthorizeStep`, whose cases the `Session.Authorize…` lemmas state |
| Session.OAuthSession.LogInIfNeeded | GreenshotPlugin/OAuth/OAuthSession.cs:487-493 | the login at the start of a pass; the result, session and world are `LogInStep`, whose cases `Session.LogInFacts` states |
| Session.Merge | GreenshotPlugin/OAuth/OAuthSession.cs:498-510 | the copy of the signed and the additional parameters is refused exactly when the two together repeat a key, with the first repeated key, and otherwise holds both in order |
| Session.CollectProtocolKeys | GreenshotPlugin/OAuth/OAuthSession.cs:524-531 | the keys to delete are the `oauth_` keys, in dictionary order |
| Session.RemoveProtocolParameters | GreenshotPlugin/OAuth/OAuthSession.cs:524-535 | after the clean-up the dictionary holds exactly its non-`oauth_` entries |
| Session.OAuthSession.ForgetToken | GreenshotPlugin/OAuth/OAuthSession.cs:519-536 | after a 401 the token and secret are cleared, the verifier and responses are kept, and only the non-`oauth_` parameters remain |
| Session.OAuthSession.Attempt | GreenshotPlugin/OAuth/OAuthSession.cs:496-511 | one try: sign the caller's dictionary, copy it and the additional parameters into a new one, send; the result, the dictionary and the world are `AttemptStep`, whose cases `Session.AttemptCases` states |
| Session.OAuthSession.Round | GreenshotPlugin/OAuth/OAuthSession.cs:487-540 | one pass of the loop: the login, then an attempt unless the login failed; the reply and whether the attempt was answered 401 are `RoundStep` |
| Session.OAuthSession.SendWithRetry | GreenshotPlugin/OAuth/OAuthSession.cs:484-546 | the loop runs at most two passes and retries only after a 401 from a pass's attempt, clearing the token and the `oauth_` parameters first; the result, session, dictionary and world are `OAuthRequestStep` |
| Session.OAuthSession.MakeOAuthRequest | GreenshotPlugin/OAuth/OAuthSession.cs:476-547 | signs a new dictionary when none is given, then runs the loop; the result, session, the caller's dictionary and the world are `OAuthRequestStep`, whose cases the `Session.OAuthRequest…` lemmas state |
| Session.SignStepFacts | GreenshotPlugin/OAuth/OAuthSession.cs:556-643 | signing sends nothing and shows nothing, keeps the non-`oauth_` entries, draws at most one nonce and one clock reading (exactly one each when it returns normally), and throws only a null reference, a duplicate key or an unusable certificate |
| Session.SignFresh | GreenshotPlugin/OAuth/OAuthSession.cs:303-304 | signing a new dictionary draws one nonce and one clock reading and throws only when the signature cannot be computed; otherwise it leaves the injected parameters and the signature |
| Session.TokenRequestSends | GreenshotPlugin/OAuth/OAuthSession.cs:303-305 | a token request with a URI sends exactly one exchange of its leg, carrying the injected parameters and their signature, unless the signature cannot be computed; the answer decides the result |
| Session.TokenRequestShape | GreenshotPlugin/OAuth/OAuthSession.cs:303-305 | a token request sends at most one exchange, all of its own leg, and shows nothing; a result is the body of the answered exchange; the errors are signing or transport errors |
| Session.RequestTokenFacts | GreenshotPlugin/OAuth/OAuthSession.cs:301-319 | the request-token leg sends one token request at most, shows nothing, keeps the verifier and the access-token response, and returns normally only after an answered exchange |
| Session.AuthorizeTokenFacts | GreenshotPlugin/OAuth/OAuthSession.cs:325-359 | the authorisation step sends and draws nothing; it shows the dialog once, with the link, exactly when there is a token and the link can be built, and otherwise changes nothing; a returned token is the session's, with a verifier when one is required |
| Session.AccessTokenFacts | GreenshotPlugin/OAuth/OAuthSession.cs:365-393 | the access-token leg throws and changes nothing when its guard fails; otherwise it sends one token request and shows nothing; a normal return follows an answered exchange and gives the session's new, set token |
| Session.AuthorizeSendsTokenRequestsOnly | GreenshotPlugin/OAuth/OAuthSession.cs:419-451 | `AuthorizeAsync` sends at most two requests, none of them a resource request, and shows the dialog at most once |
| Session.SignFreshWithoutToken | GreenshotPlugin/OAuth/OAuthSession.cs:421-427 | a new dictionary signed for a session without token and verifier carries neither `oauth_token` nor `oauth_verifier` |
| Session.AuthorizeRequestLegIsFresh | GreenshotPlugin/OAuth/OAuthSession.cs:421-427 | the request-token request is signed after the token, secret and verifier are cleared, so it carries no `oauth_token` or `oauth_verifier` from before, and it is the first exchange sent |
| Session.RequestLegSendsSigned | GreenshotPlugin/OAuth/OAuthSession.cs:427 | a signed request-token leg sends exactly one exchange, carrying the signed dictionary |
| Session.AuthorizeServiceNotAvailable | GreenshotPlugin/OAuth/OAuthSession.cs:425-433 | `AuthorizeAsync` throws "Service is not available" exactly when the request-token leg throws, wrapping that error |
| Session.AuthorizeDeclined | GreenshotPlugin/OAuth/OAuthSession.cs:435-440 | `AuthorizeAsync` returns false exactly when the request-token leg succeeded and the dialog gave no token; then no access-token request is sent |
| Session.AuthorizeGranted | GreenshotPlugin/OAuth/OAuthSession.cs:441-444 | `AuthorizeAsync` returns true exactly when all three legs succeed; then one answered request-token exchange and one answered access-token exchange were added, the dialog was shown once, and a token is set |
| Session.LogInFacts | GreenshotPlugin/OAuth/OAuthSession.cs:487-493 | with a token nothing happens; without one, "Not authorized" when automatic login is off; otherwise `AuthorizeAsync` runs, its error is passed on and `false` becomes "Not authorized"; no resource request |
| Session.SendStepErrors | GreenshotPlugin/OAuth/OAuthSession.cs:655-753 | sending fails only for a null URI, an error status or no response |
| Session.SendSignedCases | GreenshotPlugin/OAuth/OAuthSession.cs:498-511 | after signing, an attempt sends nothing when signing threw or the copy repeats a key; otherwise exactly one resource request (unless the request URI is null) carrying everything copied, whose answer is the result |
| Session.SendSignedDuplicate | GreenshotPlugin/OAuth/OAuthSession.cs:498-510 | after signing returned, the attempt throws a duplicate key exactly when the signed and the additional parameters together repeat a key |
| Session.AttemptCases | GreenshotPlugin/OAuth/OAuthSession.cs:496-511 | an attempt shows nothing, keeps the non-`oauth_` entries and sends exactly one resource request exactly when signing returned, the copy repeats no key and the request URI is set; a success or an HTTP error comes from that request's answer |
| Session.RoundSends | GreenshotPlugin/OAuth/OAuthSession.cs:487-540 | a pass sends at most one resource request, after its login's token requests; it asks for a retry exactly when that request was answered 401; a success is that answer's body |
| Session.OAuthRequestPasses | GreenshotPlugin/OAuth/OAuthSession.cs:484-546 | the result is the first pass's unless its attempt was answered 401; the second pass starts with the token and secret cleared, the `oauth_` parameters removed and the world as left; a second 401 ends the loop with that error, cleared again |
| Session.OAuthRequestWithoutLogin | GreenshotPlugin/OAuth/OAuthSession.cs:487-492 | without a token and with automatic login off, `MakeOAuthRequest` throws "Not authorized" and changes nothing |
| Session.OAuthRequestLoginFails | GreenshotPlugin/OAuth/OAuthSession.cs:487-492 | a login that fails on the first pass ends `MakeOAuthRequest` with its error, without a retry, even when it was a 401 to a token request |
| Session.OAuthRequestRetriesAfterUnauthorized | GreenshotPlugin/OAuth/OAuthSession.cs:513-535 | with a token the first pass sends at once and retries exactly after a 401; the retry has no token, so it logs in again or, with automatic login off, throws "Not authorized"; its nonce is drawn after the first request's |
| Session.OAuthRequestSendsAtMostTwo | GreenshotPlugin/OAuth/OAuthSession.cs:484-546 | at most two resource requests, the second only after a 401 to the first; a success is the last answer's body; two 401s give that error with no token, no secret and no `oauth_` parameter; the other parameters are kept |
| Memento.ChangeFieldHolderMemento.constructor | Greenshot.Addon.Editor/Memento/ChangeFieldHolderMemento.cs:40-45 | records the holder, the field and the field's current value |
| Memento.ChangeFieldHolderMemento.Merge | Greenshot.Addon.Editor/Memento/ChangeFieldHolderMemento.cs:53-70 | true exactly for a memento about the same field of the same holder; a disposed other memento throws |
| Memento.ChangeFieldHolderMemento.Restore | Greenshot.Addon.Editor/Memento/ChangeFieldHolderMemento.cs:72-80 | invalidates the holder once, returns a new memento with the current value, and writes the recorded value back without touching other fields; a disposed memento throws |
| Memento.ChangeFieldHolderMemento.Dispose | Greenshot.Addon.Editor/Memento/ChangeFieldHolderMemento.cs:47-51 | afterwards the memento holds no holder |
| Memento.ChangeFieldHolderMemento.DisposeManaged | Greenshot.Addon.Editor/Memento/ChangeFieldHolderMemento.cs:82-86 | drops the holder whatever `disposing` is |
| Memento.RestoreRoundTrip | Greenshot.Addon.Editor/Memento/ChangeFieldHolderMemento.cs:72-80 | undo then redo puts every field back as it read before |
| Memento.RestoreTwiceIdempotent | Greenshot.Addon.Editor/Memento/ChangeFieldHolderMemento.cs:72-80 | undo, redo, undo leaves the holder as after the first undo |
| Memento.MergeSymmetric | Greenshot.Addon.Editor/Memento/ChangeFieldHolderMemento.cs:53-70 | between mementos that are not disposed, merging is symmetric, and a memento merges with itself |

## Left out

- HTTP transport: `CreateHttpClient`, `SetAuthorization`, the `User-Agent` header, `ExpectContinue`, multipart encoding and reading the response. The server is an oracle of the `World` that maps a request to a response.
- Cryptography: HMAC-SHA1, RSA-SHA1 with the certificate file, SHA-1 and Base64 are functions of the platform. A certificate that cannot be loaded is the error `CertificateUnavailable`.
- `Uri.Normalize`, `ExtendQuery` and `QueryToDictionary` (with `UriBuilder.Query` and `Uri.UnescapeDataString` of the response) are platform functions. Their source is not part of this model.
- URIs are strings. `requestUri.Equals(RequestTokenUrl)` is string equality.
- `SortedDictionary`'s default string comparer is a platform function, assumed to be a strict total order wherever sorting is reasoned about.
- The random source and the clock are World oracles indexed by the number of earlier draws and reads. `Convert.ToInt64` rounding of the seconds is inside the clock oracle.
- The login dialog and the STA thread it runs on: the dialog is a World oracle that receives the prompt and returns `IsOk` and the callback parameters.
- `async`, `ConfigureAwait`, cancellation tokens, and the one-second `Task.Delay` before the access-token request.
- Logging. `GC.SuppressFinalize` in `Dispose`.
- Session.OAuthSession.Authorize: the exception message text of `NotSupportedException("Service is not available: …")` is not modelled. The wrapped error is kept as a value.
- `IFieldHolder` and `FieldAttribute`: a holder is a map from attributes to values. `GetValue` and `SetValue` read and write that map. `SetValue`'s own invalidation of the holder is not modelled.
- `FieldAttribute.Equals` is structural equality. `IFieldHolder.Equals` is reference equality.
- `Merge` on an argument that is not a `ChangeFieldHolderMemento` is `Merge(null)`.
- Parameters.Dict.Add: an `Add` after a `Remove` is appended at the end. .NET's `Dictionary` reuses the freed slot, so after the clean-up of a 401 the second `Sign` can enumerate its `oauth_` entries in another order. The order of the Authorization header on a retried request is therefore the model's order only; its contents are not affected.
- Session.OAuthSession.Sign: a null HTTP method is not modelled; `HttpMethod` always has a name. In C# `method.ToString()` at line 566 throws `NullReferenceException` before any `Add`, so `AuthorizeAsync` would report "Service is not available" and `MakeOAuthRequest` would pass the exception on after its login.
- Session.OAuthSession.constructor: null consumer credentials are not modelled; the key and the secret are strings. In C# a null secret makes `Uri.EscapeDataString` throw at line 603, after the `Add`s of lines 572-600, and a null key is added as a null value, which the normaliser skips and the header writes as `oauth_consumer_key=""`.
- Signing.IsProtocolKey: the `oauth_` prefix test is ordinal. `string.StartsWith(string)` at lines 527 and 667 compares under the current culture, which can ignore characters such as a soft hyphen, so a key like "o\u00ADauth_x" counts as a protocol key in C# but not here.
- Signing.SameMethod: `HttpMethod` equality ignores case. The model upper-cases ASCII letters only, so method names that differ in the case of non-ASCII letters are not equal here.
- Values in dictionaries are strings or `HttpContent` upload parts. An upload part is represented by its type name, which is what `string.Format("{0}", value)` writes for it.

## Findings

| source | as written | input that shows it | evidently intended | confidence | as-written member | corrected member |
|---|---|---|---|---|---|---|
| GreenshotPlugin/OAuth/OAuthSession.cs:272 | `sb.Remove(sb.Length - 1, 1)` runs even when no string value was appended, so `Remove(-1, 1)` throws | a non-empty dictionary whose only value is binary content | the empty string, as for an empty dictionary | not executed | Parameters.GenerateNormalizedParametersString, Parameters.NormalizeAsWrittenFails | Parameters.Normalize, Parameters.NormalizeAsWrittenAgrees, Parameters.NormalizeNoText |

The crash cannot happen through `Sign`: `Sign` adds its string-valued `oauth_` entries before it normalises (lines 572-600), so the dictionary it normalises always holds a string value. `GenerateNormalizedParametersString` is private (line 255) and its only call is in `Sign` (line 601), so the defect is latent in this program.
