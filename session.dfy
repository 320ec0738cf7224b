/** `OAuthSession`: the OAuth 1.0a client of the plugins (RFC 5849). It holds the
    consumer credentials and the current token, signs requests, sends them, walks
    through the three legs of authorisation (request token, user login, access
    token) and retries a resource request once after a 401. */
module Session {
  import opened Wrappers
  import opened Strings
  import opened PercentEncoding
  import opened Parameters
  import opened Errors
  import opened Foreign
  import opened Signing
  import opened Dispatch

  /** What the transport reports for a request: a success status with its body, a
      `WebException` carrying an HTTP response with a status code, or a
      `WebException` without a response (the server could not be reached). */
  datatype Response = Ok(body: string) | Status(code: int) | NoResponse

  /** The result the session sees for a response. */
  function ResponseResult(r: Response): Result<string, Error>
  {
    match r
    case Ok(body) => Success(body)
    case Status(code) => Failure(HttpError(code))
    case NoResponse => Failure(TransportError)
  }

  /** Which leg of the protocol a request belongs to: a label of the model only, so
      that properties can count the resource requests. */
  datatype Leg = RequestTokenLeg | AccessTokenLeg | ResourceLeg

  /** One request sent and the response it got. */
  datatype Exchange = Exchange(leg: Leg, request: Request, response: Response)

  /** What the login dialog is shown: title, browser size, authorisation link and
      the callback URL it watches for. */
  datatype LoginPrompt = LoginPrompt(title: string, width: int, height: int, link: string, callbackUrl: Option<string>)

  /** How the user left the login dialog: `IsOk` and the parameters of the callback
      URL the browser reached (null when it did not). */
  datatype LoginResult = LoginResult(isOk: bool, callbackParameters: Option<map<string, string>>)

  /** The resource requests of a transcript, in order. */
  function ResourceExchanges(t: seq<Exchange>): (r: seq<Exchange>)
    ensures |r| <= |t|
  {
    if t == [] then [] else (if t[0].leg == ResourceLeg then [t[0]] else []) + ResourceExchanges(t[1..])
  }

  lemma {:induction false} ResourceExchangesAppend(a: seq<Exchange>, b: seq<Exchange>)
    ensures ResourceExchanges(a + b) == ResourceExchanges(a) + ResourceExchanges(b)
  {
    if a != [] {
      ResourceExchangesAppend(a[1..], b);
      assert (a + b)[1..] == a[1..] + b;
    } else {
      assert a + b == b;
    }
  }

  /** One `Dictionary.Add`, as the start of a run of Adds. */
  method AddParameter(d: Dict, key: string, value: string) returns (clash: Option<string>)
    requires d.Valid()
    modifies d
    ensures d.Valid()
    ensures Added(d.entries, clash) == AddEach(old(d.entries), [(key, Text(value))])
    ensures clash.Some? <==> key in KeysOf(old(d.entries))
  {
    var added := d.Add(key, Text(value));
    clash := if added then None else Some(key);
  }

  /** An `Add` within a run: the run over `[(key, value)] + rest` is this Add
      followed, unless it was refused, by the run over `rest`. */
  method AddNext(d: Dict, key: string, value: string, ghost rest: seq<Entry>) returns (clash: Option<string>)
    requires d.Valid()
    modifies d
    ensures d.Valid()
    ensures AddEach(old(d.entries), [(key, Text(value))] + rest)
         == if clash.Some? then Added(d.entries, clash) else AddEach(d.entries, rest)
    ensures clash.Some? <==> key in KeysOf(old(d.entries))
    ensures clash.None? ==> d.entries == old(d.entries) + [(key, Text(value))]
  {
    clash := AddParameter(d, key, value);
    AddEachConcat(old(d.entries), [(key, Text(value))], rest);
  }

  /** An `Add` guarded by `value` being set. */
  method AddOptional(d: Dict, key: string, value: Option<string>) returns (clash: Option<string>)
    requires d.Valid()
    modifies d
    ensures d.Valid()
    ensures Added(d.entries, clash) == AddEach(old(d.entries), OptionalParameter(key, value))
  {
    clash := None;
    if value.Some? {
      clash := AddParameter(d, key, value.value);
    }
  }

  /** A loop of `Dictionary.Add` over `items`, stopping at the first key refused. */
  method AddAll(d: Dict, items: seq<Entry>) returns (clash: Option<string>)
    requires d.Valid()
    modifies d
    ensures d.Valid()
    ensures Added(d.entries, clash) == AddEach(old(d.entries), items)
  {
    var i := 0;
    while i < |items|
      invariant 0 <= i <= |items|
      invariant d.Valid()
      invariant AddEach(old(d.entries), items) == AddEach(d.entries, items[i..])
    {
      assert items[i..][0] == items[i] && items[i..][1..] == items[i + 1..];
      var added := d.Add(items[i].0, items[i].1);
      if !added {
        return Some(items[i].0);
      }
      i := i + 1;
    }
    return None;
  }

  /** The entries of a dictionary that may be null, as a sequence. */
  function EntriesOf(d: Dict?): seq<Entry>
    reads d
  {
    if d == null then [] else d.entries
  }

  /** `MakeOAuthRequest` copies the signed parameters and then the additional ones
      into a new dictionary; the copy is refused, at the first repeated key,
      exactly when the two together repeat a key. */
  method Merge(first: seq<Entry>, second: Dict?) returns (merged: Dict, clash: Option<string>)
    ensures fresh(merged) && merged.Valid()
    ensures clash == AddEach([], first + EntriesOf(second)).clash
    ensures clash.None? <==> DistinctKeys(first + EntriesOf(second))
    ensures clash.None? ==> merged.entries == first + EntriesOf(second)
  {
    merged := new Dict();
    AddEachConcat([], first, EntriesOf(second));
    AddEachDistinct([], first + EntriesOf(second));
    assert [] + (first + EntriesOf(second)) == first + EntriesOf(second);
    clash := AddAll(merged, first);
    if clash.None? && second != null {
      clash := AddAll(merged, second.entries);
    } else if clash.None? {
      assert first + EntriesOf(second) == first;
    }
  }

  /** Adding `items` one by one to a dictionary succeeds exactly when the keys
      stay distinct, and then appends them in order. */
  lemma {:induction false} AddEachDistinct(entries: seq<Entry>, items: seq<Entry>)
    requires DistinctKeys(entries)
    ensures AddEach(entries, items).clash.None? <==> DistinctKeys(entries + items)
    ensures AddEach(entries, items).clash.None? ==> AddEach(entries, items).entries == entries + items
    decreases |items|
  {
    if items == [] {
      assert entries + items == entries;
    } else if items[0].0 in KeysOf(entries) {
      var i :| 0 <= i < |entries| && KeysOf(entries)[i] == items[0].0;
      assert (entries + items)[i].0 == (entries + items)[|entries|].0;
    } else {
      var grown := entries + [items[0]];
      assert DistinctKeys(grown) by {
        forall i | 0 <= i < |entries| ensures entries[i].0 != items[0].0 {
          assert KeysOf(entries)[i] == entries[i].0;
        }
      }
      assert grown + items[1..] == entries + items;
      AddEachDistinct(grown, items[1..]);
    }
  }

  /** The first half of the clean-up after a 401: collect the keys with the
      `oauth_` prefix, in dictionary order. */
  method CollectProtocolKeys(entries: seq<Entry>) returns (keysToDelete: seq<string>)
    ensures keysToDelete == KeysOf(ProtocolEntries(entries))
  {
    keysToDelete := [];
    var i := 0;
    while i < |entries|
      invariant 0 <= i <= |entries|
      invariant keysToDelete == KeysOf(ProtocolEntries(entries[..i]))
    {
      assert entries[..i + 1] == entries[..i] + [entries[i]];
      ProtocolEntriesAppend(entries[..i], [entries[i]]);
      KeysOfAppend(ProtocolEntries(entries[..i]), ProtocolEntries([entries[i]]));
      if IsProtocolKey(entries[i].0) {
        keysToDelete := keysToDelete + [entries[i].0];
      }
      i := i + 1;
    }
    assert entries[..i] == entries;
  }

  /** What `MakeOAuthRequest` does after a 401: collect the protocol keys, then
      remove each, so that the next attempt can sign afresh. */
  method RemoveProtocolParameters(parameters: Dict)
    requires parameters.Valid()
    modifies parameters
    ensures parameters.Valid()
    ensures parameters.entries == NonProtocolEntries(old(parameters.entries))
  {
    var entries := parameters.entries;
    var keysToDelete := CollectProtocolKeys(entries);
    var j := 0;
    while j < |keysToDelete|
      invariant 0 <= j <= |keysToDelete|
      invariant parameters.Valid()
      invariant parameters.entries == RemoveKeys(entries, keysToDelete[..j])
    {
      assert keysToDelete[..j + 1][..j] == keysToDelete[..j];
      parameters.Remove(keysToDelete[j]);
      j := j + 1;
    }
    assert keysToDelete[..j] == keysToDelete;
    RemoveKeysWithout(entries, keysToDelete);
    ProtocolKeysOf(entries);
    WithoutProtocolKeys(entries, SetOf(keysToDelete));
  }

  /** Everything outside the session: the random source, the clock, the server and
      the user at the login dialog, each an oracle read in order, plus the platform
      functions. `transcript` and `prompts` record what the session sent and showed. */
  class World {
    const platform: Platform
    const nonceAt: nat -> nat
    const clockAt: nat -> nat
    const respond: (nat, Request) -> Response
    const login: (nat, LoginPrompt) -> LoginResult
    var draws: nat
    var clockReads: nat
    var transcript: seq<Exchange>
    var prompts: seq<LoginPrompt>

    constructor (platform: Platform, nonceAt: nat -> nat, clockAt: nat -> nat,
                 respond: (nat, Request) -> Response, login: (nat, LoginPrompt) -> LoginResult)
      ensures this.platform == platform && this.nonceAt == nonceAt && this.clockAt == clockAt
      ensures this.respond == respond && this.login == login
      ensures draws == 0 && clockReads == 0 && transcript == [] && prompts == []
    {
      this.platform := platform;
      this.nonceAt := nonceAt;
      this.clockAt := clockAt;
      this.respond := respond;
      this.login := login;
      draws := 0;
      clockReads := 0;
      transcript := [];
      prompts := [];
    }

    /** The state of the world, as a value. */
    function State(): WorldState
      reads this
    {
      WorldState(draws, clockReads, transcript, prompts)
    }

    /** `GenerateNonce`. */
    method NextNonce() returns (nonce: string)
      modifies this
      ensures nonce == Nonce(nonceAt(old(draws)))
      ensures draws == old(draws) + 1
      ensures clockReads == old(clockReads) && transcript == old(transcript) && prompts == old(prompts)
    {
      nonce := Nonce(nonceAt(draws));
      draws := draws + 1;
    }

    /** `GenerateTimeStamp`. */
    method NextTimestamp() returns (timestamp: string)
      modifies this
      ensures timestamp == Timestamp(clockAt(old(clockReads)))
      ensures clockReads == old(clockReads) + 1
      ensures draws == old(draws) && transcript == old(transcript) && prompts == old(prompts)
    {
      timestamp := Timestamp(clockAt(clockReads));
      clockReads := clockReads + 1;
    }

    /** Sends a request and records the exchange. */
    method Send(leg: Leg, request: Request) returns (response: Response)
      modifies this
      ensures response == respond(|old(transcript)|, request)
      ensures transcript == old(transcript) + [Exchange(leg, request, response)]
      ensures draws == old(draws) && clockReads == old(clockReads) && prompts == old(prompts)
    {
      response := respond(|transcript|, request);
      transcript := transcript + [Exchange(leg, request, response)];
    }

    /** Shows the login dialog modally and returns how the user left it. */
    method ShowLogin(prompt: LoginPrompt) returns (result: LoginResult)
      modifies this
      ensures result == login(|old(prompts)|, prompt)
      ensures prompts == old(prompts) + [prompt]
      ensures draws == old(draws) && clockReads == old(clockReads) && transcript == old(transcript)
    {
      result := login(|prompts|, prompt);
      prompts := prompts + [prompt];
    }
  }

  /** The configurable properties of a session: the HTTP methods and URLs of the
      token requests and of the authorisation page, the signature method, the
      callback URL, whether a verifier is required, whether to log in on demand,
      and the title and size of the login dialog. */
  datatype Settings = Settings(
    requestTokenMethod: HttpMethod, accessTokenMethod: HttpMethod,
    requestTokenUrl: Option<string>, authorizeUrl: Option<string>, accessTokenUrl: Option<string>,
    signatureType: SignatureType, callbackUrl: Option<string>, checkVerifier: bool, autoLogin: bool,
    loginTitle: string, browserWidth: int, browserHeight: int)

  class OAuthSession {
    const consumerKey: string
    const consumerSecret: string
    const world: World
    var settings: Settings
    var token: Option<string>
    var tokenSecret: Option<string>
    var verifier: Option<string>
    var requestTokenResponseParameters: Option<map<string, string>>
    var accessTokenResponseParameters: Option<map<string, string>>

    /** A session for the consumer key and secret (for RSA-SHA1: the certificate
        path and its password), with GET for both token requests, HMAC-SHA1, the
        Greenshot callback URL, verifier checking and automatic login. */
    constructor (consumerKey: string, consumerSecret: string, world: World)
      ensures this.consumerKey == consumerKey && this.consumerSecret == consumerSecret && this.world == world
      ensures settings.requestTokenMethod == GET && settings.accessTokenMethod == GET && settings.signatureType == HMACSHA1
      ensures settings.autoLogin && settings.checkVerifier
      ensures settings.callbackUrl == Some("http://getgreenshot.org")
      ensures settings.loginTitle == "Authorize Greenshot access" && settings.browserWidth == 864 && settings.browserHeight == 587
      ensures settings.requestTokenUrl.None? && settings.authorizeUrl.None? && settings.accessTokenUrl.None?
      ensures token.None? && tokenSecret.None? && verifier.None?
      ensures requestTokenResponseParameters.None? && accessTokenResponseParameters.None?
    {
      this.consumerKey := consumerKey;
      this.consumerSecret := consumerSecret;
      this.world := world;
      settings := Settings(GET, GET, None, None, None, HMACSHA1, Some("http://getgreenshot.org"), true, true,
                           "Authorize Greenshot access", 864, 587);
      token := None;
      tokenSecret := None;
      verifier := None;
      requestTokenResponseParameters := None;
      accessTokenResponseParameters := None;
    }

    /** What the session's operations read but do not change. */
    function Env(): Environment
      reads this
    {
      Environment(consumerKey, consumerSecret, settings, world.platform, world.nonceAt, world.clockAt, world.respond, world.login)
    }

    /** The fields the session's operations update. */
    function State(): SessionState
      reads this
    {
      SessionState(token, tokenSecret, verifier, requestTokenResponseParameters, accessTokenResponseParameters)
    }

    /** The session state `Sign` reads. */
    function Context(): SigningContext
      reads this
    {
      ContextOf(Env(), State())
    }

    /** The first two `Add` calls of `Sign`: the version, then the nonce, which is
        drawn only once the version is in. */
    method AddVersionAndNonce(parameters: Dict, ghost rest: seq<Entry>) returns (clash: Option<string>)
      requires parameters.Valid()
      modifies parameters, world
      ensures parameters.Valid()
      ensures AddEach(old(parameters.entries), [(OAUTH_VERSION_KEY, Text(OAUTH_VERSION)),
                                                (OAUTH_NONCE_KEY, Text(Nonce(world.nonceAt(old(world.draws)))))] + rest)
           == if clash.Some? then Added(parameters.entries, clash) else AddEach(parameters.entries, rest)
      ensures world.transcript == old(world.transcript) && world.prompts == old(world.prompts)
      ensures world.clockReads == old(world.clockReads)
      ensures world.draws == old(world.draws) + NonceDraws(old(parameters.entries))
      ensures ClockReadings(old(parameters.entries)) == if clash.Some? then 0 else 1
    {
      ghost var nonce0 := Nonce(world.nonceAt(world.draws));
      ghost var r2 := [(OAUTH_NONCE_KEY, Text(nonce0))] + rest;
      assert [(OAUTH_VERSION_KEY, Text(OAUTH_VERSION)), (OAUTH_NONCE_KEY, Text(nonce0))] + rest
          == [(OAUTH_VERSION_KEY, Text(OAUTH_VERSION))] + r2;
      clash := AddNext(parameters, OAUTH_VERSION_KEY, OAUTH_VERSION, r2);
      if clash.Some? {
        return;
      }
      var nonce := world.NextNonce();
      KeysOfAppend(old(parameters.entries), [(OAUTH_VERSION_KEY, Text(OAUTH_VERSION))]);
      clash := AddNext(parameters, OAUTH_NONCE_KEY, nonce, rest);
    }

    /** The five `Add` calls `Sign` always makes, drawing the nonce after adding the
        version and reading the clock after adding the nonce. */
    method AddFixedParameters(parameters: Dict) returns (clash: Option<string>)
      requires parameters.Valid()
      modifies parameters, world
      ensures parameters.Valid()
      ensures Added(parameters.entries, clash)
           == AddEach(old(parameters.entries), FixedParameters(Context(), Nonce(world.nonceAt(old(world.draws))),
                                                               Timestamp(world.clockAt(old(world.clockReads)))))
      ensures world.transcript == old(world.transcript) && world.prompts == old(world.prompts)
      ensures world.draws == old(world.draws) + NonceDraws(old(parameters.entries))
      ensures world.clockReads == old(world.clockReads) + ClockReadings(old(parameters.entries))
    {
      ghost var nonce0 := Nonce(world.nonceAt(world.draws));
      ghost var timestamp0 := Timestamp(world.clockAt(world.clockReads));
      ghost var r5: seq<Entry> := [(OAUTH_CONSUMER_KEY_KEY, Text(consumerKey))];
      ghost var r4 := [(OAUTH_SIGNATURE_METHOD_KEY, Text(SignatureMethodName(settings.signatureType)))] + r5;
      ghost var r3 := [(OAUTH_TIMESTAMP_KEY, Text(timestamp0))] + r4;
      assert FixedParameters(Context(), nonce0, timestamp0)
          == [(OAUTH_VERSION_KEY, Text(OAUTH_VERSION)), (OAUTH_NONCE_KEY, Text(nonce0))] + r3;
      clash := AddVersionAndNonce(parameters, r3);
      if clash.Some? {
        return;
      }
      var timestamp := world.NextTimestamp();
      clash := AddNext(parameters, OAUTH_TIMESTAMP_KEY, timestamp, r4);
      if clash.Some? {
        return;
      }
      clash := AddNext(parameters, OAUTH_SIGNATURE_METHOD_KEY, SignatureMethodName(settings.signatureType), r5);
      if clash.Some? {
        return;
      }
      clash := AddNext(parameters, OAUTH_CONSUMER_KEY_KEY, consumerKey, []);
      assert r5 == r5 + [];
    }

    /** The `Add` calls of `Sign`: the five fixed parameters, then the callback (only
        for the request-token URL), the verifier and the token when they are set. */
    method AddProtocolParameters(uri: string, parameters: Dict) returns (clash: Option<string>)
      requires parameters.Valid()
      modifies parameters, world
      ensures parameters.Valid()
      ensures Added(parameters.entries, clash)
           == AddEach(old(parameters.entries), ProtocolParameters(Context(), uri, Nonce(world.nonceAt(old(world.draws))),
                                                                  Timestamp(world.clockAt(old(world.clockReads)))))
      ensures world.transcript == old(world.transcript) && world.prompts == old(world.prompts)
      ensures world.draws == old(world.draws) + NonceDraws(old(parameters.entries))
      ensures world.clockReads == old(world.clockReads) + ClockReadings(old(parameters.entries))
    {
      ghost var ctx := Context();
      ghost var before := parameters.entries;
      ghost var fixed := FixedParameters(ctx, Nonce(world.nonceAt(world.draws)), Timestamp(world.clockAt(world.clockReads)));
      ghost var cb := OptionalParameter(OAUTH_CALLBACK_KEY, if SendsCallback(ctx, uri) then ctx.callbackUrl else None);
      ghost var vf := OptionalParameter(OAUTH_VERIFIER_KEY, if IsNullOrEmpty(ctx.verifier) then None else ctx.verifier);
      ghost var tk := OptionalParameter(OAUTH_TOKEN_KEY, if IsNullOrEmpty(ctx.token) then None else ctx.token);
      AddEachConcat(before, fixed + cb + vf, tk);
      AddEachConcat(before, fixed + cb, vf);
      AddEachConcat(before, fixed, cb);

      clash := AddFixedParameters(parameters);
      if clash.Some? {
        return;
      }
      clash := AddOptional(parameters, OAUTH_CALLBACK_KEY, if SendsCallback(Context(), uri) then settings.callbackUrl else None);
      if clash.Some? {
        return;
      }
      clash := AddOptional(parameters, OAUTH_VERIFIER_KEY, if IsNullOrEmpty(verifier) then None else verifier);
      if clash.Some? {
        return;
      }
      clash := AddOptional(parameters, OAUTH_TOKEN_KEY, if IsNullOrEmpty(token) then None else token);
    }

    /** The signature `Sign` computes once the protocol parameters are in place:
        the base string, the key and the digest of the configured method. */
    method SignatureValue(httpMethod: HttpMethod, uri: string, entries: seq<Entry>) returns (signature: Result<string, Error>)
      requires HasText(entries)
      ensures signature == SignatureOf(Context(), httpMethod.name, uri, entries, world.platform)
    {
      var platform := world.platform;
      // a string value is present, so the normaliser does not throw
      NormalizeAsWrittenAgrees(Some(entries), platform.less);
      var normalized := GenerateNormalizedParametersString(Some(entries), platform.less).value;
      var signatureBase := httpMethod.name + "&" + Escape(platform.normalizeUri(uri)) + "&" + Escape(normalized);
      var key := Escape(consumerSecret) + "&" + (if IsNullOrEmpty(tokenSecret) then "" else Escape(tokenSecret.value));
      match settings.signatureType {
        case RSASHA1 =>
          var base64 := platform.rsaSha1(consumerKey, consumerSecret, signatureBase);
          match base64 {
            case None => return Failure(CertificateUnavailable);
            case Some(b64) => return Success(Escape(b64));
          }
        case PLAINTEXT =>
          return Success(key);
        case HMACSHA1 =>
          return Success(platform.hmacSha1(key, signatureBase));
      }
    }

    /** `Sign`: adds the protocol parameters and the signature to `parameters`, as
        `SignEffect` describes, drawing the nonce and reading the clock on the way. */
    method Sign(httpMethod: HttpMethod, requestUri: Option<string>, parameters: Dict?) returns (outcome: Outcome<Error>)
      requires parameters != null ==> parameters.Valid()
      modifies parameters, world
      ensures parameters == null ==> outcome == Fail(ArgumentNull("parameters")) && world.State() == old(world.State())
      ensures parameters != null ==> parameters.Valid()
      ensures parameters != null ==>
        Signed(parameters.entries, outcome, world.State())
        == SignStep(Env(), State(), old(world.State()), httpMethod, requestUri, old(parameters.entries))
    {
      if parameters == null {
        return Fail(ArgumentNull("parameters"));
      }
      if requestUri.None? {
        return Fail(NullReference);
      }
      var uri := requestUri.value;
      ghost var before := parameters.entries;
      ghost var w0 := world.State();
      ghost var target := SignStep(Env(), State(), w0, httpMethod, requestUri, before);
      ghost var added := AddEach(before, ProtocolParameters(Context(), uri, Nonce(world.nonceAt(w0.draws)),
                                                            Timestamp(world.clockAt(w0.clockReads))));
      ghost var after := w0.(draws := w0.draws + NonceDraws(before), clockReads := w0.clockReads + ClockReadings(before));
      SignStepCases(Env(), State(), w0, httpMethod, uri, before);
      var clash := AddProtocolParameters(uri, parameters);
      assert Added(parameters.entries, clash) == added && world.State() == after;
      if clash.Some? {
        outcome := Fail(DuplicateKey(clash.value));
        assert Signed(parameters.entries, outcome, world.State()) == target;
        return;
      }
      AddedProtocolHasText(Context(), uri, before, Nonce(world.nonceAt(w0.draws)), Timestamp(world.clockAt(w0.clockReads)));
      var signature := SignatureValue(httpMethod, uri, parameters.entries);
      if signature.Failure? {
        outcome := Fail(signature.error);
        assert Signed(parameters.entries, outcome, world.State()) == target;
        return;
      }
      var added' := parameters.Add(OAUTH_SIGNATURE_KEY, Text(signature.value));
      if !added' {
        outcome := Fail(DuplicateKey(OAUTH_SIGNATURE_KEY));
        assert Signed(parameters.entries, outcome, world.State()) == target;
        return;
      }
      outcome := Pass;
      assert Signed(parameters.entries, outcome, world.State()) == target;
    }

    /** `MakeRequest`: splits the signed parameters between the Authorization header
        and the query or form, sends the request and returns the response body. */
    method MakeRequest(httpMethod: HttpMethod, leg: Leg, requestUri: Option<string>, headers: map<string, string>,
                       parameters: Dict?, content: Option<string>) returns (result: Result<string, Error>)
      modifies world
      ensures parameters == null ==> result == Failure(ArgumentNull("parameters")) && world.State() == old(world.State())
      ensures parameters != null ==>
        Sent(result, world.State()) == SendStep(Env(), old(world.State()), leg, httpMethod, requestUri, headers, parameters.entries, content)
    {
      if parameters == null {
        return Failure(ArgumentNull("parameters"));
      }
      var header, requestParameters := SplitParameters(parameters.entries);
      if requestUri.None? {
        return Failure(NullReference);
      }
      var request := BuildRequest(httpMethod, requestUri.value, header, requestParameters, headers, content, world.platform);
      var response := world.Send(leg, request);
      return ResponseResult(response);
    }

    /** What `GetRequestTokenAsync` and `GetAccessTokenAsync` share: sign a fresh
        dictionary for `uri` and send it with no extra headers and no content. */
    method TokenRequest(httpMethod: HttpMethod, uri: Option<string>, leg: Leg) returns (result: Result<string, Error>)
      modifies world
      ensures Sent(result, world.State()) == TokenRequestStep(Env(), State(), old(world.State()), httpMethod, uri, leg)
    {
      var parameters := new Dict();
      var outcome := Sign(httpMethod, uri, parameters);
      if outcome.Fail? {
        return Failure(outcome.error);
      }
      result := MakeRequest(httpMethod, leg, uri, map[], parameters, None);
    }

    /** `GetRequestTokenAsync`: requests a token for the request-token URL and takes
        the token and its secret from a non-empty response. */
    method GetRequestToken() returns (outcome: Outcome<Error>)
      modifies this, world
      ensures settings == old(settings)
      ensures Step(outcome, State(), world.State()) == RequestTokenStep(Env(), old(State()), old(world.State()))
    {
      var response := TokenRequest(settings.requestTokenMethod, settings.requestTokenUrl, RequestTokenLeg);
      outcome := ReceiveRequest(response);
    }

    /** The handling of the request-token response in `GetRequestTokenAsync`, as
        `ReceiveRequestToken` describes it. */
    method ReceiveRequest(response: Result<string, Error>) returns (outcome: Outcome<Error>)
      modifies this
      ensures settings == old(settings)
      ensures verifier == old(verifier) && accessTokenResponseParameters == old(accessTokenResponseParameters)
      ensures (outcome, Tokens()) == ReceiveRequestToken(response, world.platform.parseResponse, old(Tokens()))
    {
      if response.Failure? {
        return Fail(response.error);
      }
      if response.value != "" {
        var ps := world.platform.parseResponse(response.value);
        requestTokenResponseParameters := Some(ps);
        if OAUTH_TOKEN_KEY in ps {
          token := Some(ps[OAUTH_TOKEN_KEY]);
          if OAUTH_TOKEN_SECRET_KEY !in ps {
            return Fail(KeyNotFound(OAUTH_TOKEN_SECRET_KEY));
          }
          tokenSecret := Some(ps[OAUTH_TOKEN_SECRET_KEY]);
        }
      }
      return Pass;
    }

    /** One attempt of `MakeOAuthRequest`: sign `parameters`, copy them and then the
        additional parameters into a new dictionary, and send that. */
    method Attempt(httpMethod: HttpMethod, signUri: Option<string>, requestUri: Option<string>, headers: map<string, string>,
                   parameters: Dict, additionalParameters: Dict?, content: Option<string>) returns (result: Result<string, Error>)
      requires parameters.Valid()
      modifies parameters, world
      ensures parameters.Valid()
      ensures Attempted(result, parameters.entries, world.State())
           == AttemptStep(Env(), State(), old(world.State()),
                          old(CallOf(httpMethod, signUri, requestUri, headers, parameters, additionalParameters, content)),
                          old(parameters.entries))
    {
      ghost var env := Env();
      ghost var call := CallOf(httpMethod, signUri, requestUri, headers, parameters, additionalParameters, content);
      ghost var step := SignStep(env, State(), world.State(), httpMethod, signUri, parameters.entries);
      assert AttemptStep(env, State(), world.State(), call, parameters.entries) == SendSigned(env, step, call);
      var signed := Sign(httpMethod, signUri, parameters);
      assert Signed(parameters.entries, signed, world.State()) == step;
      if signed.Fail? {
        return Failure(signed.error);
      }
      assert EntriesOf(additionalParameters) == AdditionalEntries(call, parameters.entries);
      var merged, clash := Merge(parameters.entries, additionalParameters);
      if clash.Some? {
        return Failure(DuplicateKey(clash.value));
      }
      ghost var signedWorld := world.State();
      result := MakeRequest(httpMethod, ResourceLeg, requestUri, headers, merged, content);
      assert Sent(result, world.State())
          == SendStep(env, signedWorld, ResourceLeg, httpMethod, requestUri, headers, merged.entries, content);
    }

    /** The start of each pass of the `MakeOAuthRequest` loop: without a token, run
        the whole authorisation, and fail with "Not authorized" when `AutoLogin` is
        off or the user did not authorise. */
    method LogInIfNeeded() returns (result: Result<(), Error>)
      modifies this, world
      ensures settings == old(settings)
      ensures Step(result, State(), world.State()) == LogInStep(Env(), old(State()), old(world.State()))
    {
      if IsNullOrEmpty(token) {
        if !settings.autoLogin {
          return Failure(NotAuthorized);
        }
        var authorized := Authorize();
        if authorized.Failure? {
          return Failure(authorized.error);
        }
        if !authorized.value {
          return Failure(NotAuthorized);
        }
      }
      return Success(());
    }

    /** What `MakeOAuthRequest` does after a 401: drop the token and its secret,
        and the protocol parameters of the refused request, so that the next pass
        logs in and signs afresh. */
    method ForgetToken(parameters: Dict)
      requires parameters.Valid()
      modifies this, parameters
      ensures settings == old(settings)
      ensures State() == Forget(old(State()))
      ensures parameters.Valid()
      ensures parameters.entries == NonProtocolEntries(old(parameters.entries))
    {
      token := None;
      tokenSecret := None;
      RemoveProtocolParameters(parameters);
    }

    /** One pass of the `MakeOAuthRequest` loop: log in first when there is no
        token (if `AutoLogin` allows it), then sign and send. `unauthorized` is the
        case the loop retries: the resource request was answered 401. */
    method Round(httpMethod: HttpMethod, signUri: Option<string>, requestUri: Option<string>, headers: map<string, string>,
                 parameters: Dict, additionalParameters: Dict?, content: Option<string>)
      returns (result: Result<string, Error>, unauthorized: bool)
      requires parameters.Valid()
      modifies this, world, parameters
      ensures settings == old(settings)
      ensures parameters.Valid()
      ensures (Reply(result, State(), parameters.entries, world.State()), unauthorized)
           == RoundStep(Env(), old(State()), old(world.State()),
                        old(CallOf(httpMethod, signUri, requestUri, headers, parameters, additionalParameters, content)),
                        old(parameters.entries))
    {
      var login := LogInIfNeeded();
      if login.Failure? {
        return Failure(login.error), false;
      }
      result := Attempt(httpMethod, signUri, requestUri, headers, parameters, additionalParameters, content);
      unauthorized := result == Failure(HttpError(UNAUTHORIZED));
    }

    /** `MakeOAuthRequest`: sends a signed resource request, logging in first when
        there is no token (and `AutoLogin` allows it). A 401 answer clears the token
        and the protocol parameters and retries once; any other failure is passed on.
        Without parameters to sign, it signs a new, empty dictionary. */
    method MakeOAuthRequest(httpMethod: HttpMethod, signUri: Option<string>, requestUri: Option<string>, headers: map<string, string>,
                            parametersToSign: Dict?, additionalParameters: Dict?, content: Option<string>)
      returns (result: Result<string, Error>)
      requires parametersToSign != null ==> parametersToSign.Valid()
      modifies this, world, parametersToSign
      ensures settings == old(settings)
      ensures var r := OAuthRequestStep(Env(), old(State()), old(world.State()),
                                        old(CallOf(httpMethod, signUri, requestUri, headers, parametersToSign, additionalParameters, content)),
                                        old(EntriesOf(parametersToSign)));
        && result == r.result && State() == r.session && world.State() == r.world
        && (parametersToSign != null ==> parametersToSign.Valid() && parametersToSign.entries == r.entries)
    {
      var parameters: Dict;
      if parametersToSign == null {
        parameters := new Dict();
      } else {
        parameters := parametersToSign;
      }
      result := SendWithRetry(httpMethod, signUri, requestUri, headers, parameters, additionalParameters, content);
    }

    /** The retry loop of `MakeOAuthRequest`: at most two passes, the second only
        after the first was answered 401. */
    method SendWithRetry(httpMethod: HttpMethod, signUri: Option<string>, requestUri: Option<string>, headers: map<string, string>,
                         parameters: Dict, additionalParameters: Dict?, content: Option<string>)
      returns (result: Result<string, Error>)
      requires parameters.Valid()
      modifies this, world, parameters
      ensures settings == old(settings)
      ensures parameters.Valid()
      ensures Reply(result, State(), parameters.entries, world.State())
           == OAuthRequestStep(Env(), old(State()), old(world.State()),
                               old(CallOf(httpMethod, signUri, requestUri, headers, parameters, additionalParameters, content)),
                               old(parameters.entries))
    {
      ghost var call := CallOf(httpMethod, signUri, requestUri, headers, parameters, additionalParameters, content);
      ghost var env := Env();
      ghost var goal := OAuthRequestStep(env, State(), world.State(), call, parameters.entries);
      var retries := 2;
      var lastError: Option<Error> := None;
      while retries > 0
        invariant 0 <= retries <= 2
        invariant parameters.Valid()
        invariant settings == old(settings)
        invariant call == CallOf(httpMethod, signUri, requestUri, headers, parameters, additionalParameters, content)
        invariant Env() == env
        invariant RetryStep(env, State(), world.State(), call, parameters.entries, retries, lastError) == goal
        decreases retries
      {
        ghost var pass := RoundStep(env, State(), world.State(), call, parameters.entries);
        RetryUnfolds(env, State(), world.State(), call, parameters.entries, retries, lastError);
        retries := retries - 1;
        var unauthorized: bool;
        result, unauthorized := Round(httpMethod, signUri, requestUri, headers, parameters, additionalParameters, content);
        assert (Reply(result, State(), parameters.entries, world.State()), unauthorized) == pass;
        if !unauthorized {
          return;
        }
        lastError := Some(result.error);
        ForgetToken(parameters);
      }
      if lastError.Some? {
        return Failure(lastError.value);
      }
      return Failure(NotAuthorized);
    }

    /** The request token, its secret and the last request-token response. */
    function Tokens(): TokenState
      reads this
    {
      TokenState(token, tokenSecret, requestTokenResponseParameters)
    }

    /** `GetAuthorizeToken`: shows the authorisation page in the login dialog and
        takes the token and the verifier from the callback URL the browser reached.
        With `CheckVerifier`, a missing verifier means no token is returned. */
    method GetAuthorizeToken() returns (result: Result<Option<string>, Error>)
      modifies this, world
      ensures settings == old(settings)
      ensures Step(result, State(), world.State()) == AuthorizeTokenStep(Env(), old(State()), old(world.State()))
    {
      if IsNullOrEmpty(token) {
        return Failure(RequestTokenNotSet);
      }
      var link := AuthorizationLink(settings.authorizeUrl, token, settings.callbackUrl);
      if link.Failure? {
        return Failure(link.error);
      }
      var login := world.ShowLogin(LoginPrompt(settings.loginTitle, settings.browserWidth, settings.browserHeight, link.value, settings.callbackUrl));
      if login.isOk && login.callbackParameters.Some? {
        var ps := login.callbackParameters.value;
        if OAUTH_TOKEN_KEY in ps {
          token := Some(ps[OAUTH_TOKEN_KEY]);
        }
        if OAUTH_VERIFIER_KEY in ps {
          verifier := Some(ps[OAUTH_VERIFIER_KEY]);
        }
      }
      if settings.checkVerifier {
        if !IsNullOrEmpty(verifier) {
          return Success(token);
        }
        return Success(None);
      }
      return Success(token);
    }

    /** `GetAccessTokenAsync`: exchanges the authorised request token (and verifier)
        for an access token and its secret. */
    method GetAccessToken() returns (result: Result<Option<string>, Error>)
      modifies this, world
      ensures settings == old(settings)
      ensures Step(result, State(), world.State()) == AccessTokenStep(Env(), old(State()), old(world.State()))
    {
      if !AccessGuardPasses(token, settings.checkVerifier, verifier) {
        return Failure(RequestTokenAndVerifierNotSet);
      }
      var response := TokenRequest(settings.accessTokenMethod, settings.accessTokenUrl, AccessTokenLeg);
      result := ReceiveAccess(response);
    }

    /** The handling of the access-token response in `GetAccessTokenAsync`, as
        `ReceiveAccessToken` describes it. */
    method ReceiveAccess(response: Result<string, Error>) returns (result: Result<Option<string>, Error>)
      modifies this
      ensures settings == old(settings)
      ensures verifier == old(verifier) && requestTokenResponseParameters == old(requestTokenResponseParameters)
      ensures (result, TokenState(token, tokenSecret, accessTokenResponseParameters))
           == ReceiveAccessToken(response, world.platform.parseResponse, TokenState(old(token), old(tokenSecret), old(accessTokenResponseParameters)))
    {
      if response.Failure? {
        return Failure(response.error);
      }
      if response.value != "" {
        var ps := world.platform.parseResponse(response.value);
        accessTokenResponseParameters := Some(ps);
        if OAUTH_TOKEN_KEY in ps {
          token := Some(ps[OAUTH_TOKEN_KEY]);
        }
        if OAUTH_TOKEN_SECRET_KEY in ps {
          tokenSecret := Some(ps[OAUTH_TOKEN_SECRET_KEY]);
        }
      }
      return Success(token);
    }

    /** `AuthorizeAsync`: forgets the current token, then runs the three legs:
        request token, login dialog, access token. */
    method Authorize() returns (result: Result<bool, Error>)
      modifies this, world
      ensures settings == old(settings)
      ensures Step(result, State(), world.State()) == AuthorizeStep(Env(), old(State()), old(world.State()))
    {
      token := None;
      tokenSecret := None;
      verifier := None;
      var requested := GetRequestToken();
      if requested.Fail? {
        return Failure(ServiceNotAvailable(requested.error));
      }
      var authorized := GetAuthorizeToken();
      if authorized.Failure? {
        return Failure(authorized.error);
      }
      if IsNullOrEmpty(authorized.value) {
        return Success(false);
      }
      var accessToken := GetAccessToken();
      if accessToken.Failure? {
        return Failure(accessToken.error);
      }
      return Success(accessToken.value.Some?);
    }
  }

  /** The token, its secret and the parameters of the last token response. */
  datatype TokenState = TokenState(token: Option<string>, tokenSecret: Option<string>, responseParameters: Option<map<string, string>>)

  // ---------------------------------------------------------------------------
  // The session's operations as functions of its state

  /** What the session's operations read but never change: the consumer key and
      secret, the settings, and the world's platform functions and oracles. */
  datatype Environment = Environment(
    consumerKey: string, consumerSecret: string, settings: Settings, platform: Platform,
    nonceAt: nat -> nat, clockAt: nat -> nat,
    respond: (nat, Request) -> Response, login: (nat, LoginPrompt) -> LoginResult)

  /** The session's fields that its operations update. */
  datatype SessionState = SessionState(
    token: Option<string>, tokenSecret: Option<string>, verifier: Option<string>,
    requestTokenResponse: Option<map<string, string>>, accessTokenResponse: Option<map<string, string>>)

  /** The world as the session leaves it: random numbers drawn, clock readings
      taken, exchanges sent and login prompts shown. */
  datatype WorldState = WorldState(draws: nat, clockReads: nat, transcript: seq<Exchange>, prompts: seq<LoginPrompt>)

  /** An operation's result with the session and the world after it. */
  datatype Step<R> = Step(result: R, session: SessionState, world: WorldState)

  /** What `Sign` leaves: the dictionary's entries, whether it returned, and the world. */
  datatype Signed = Signed(entries: seq<Entry>, outcome: Outcome<Error>, world: WorldState)

  /** What a send yields: the response body or the error, and the world. */
  datatype Sent = Sent(result: Result<string, Error>, world: WorldState)

  /** The arguments of `MakeOAuthRequest` that stay the same across its passes. The
      additional parameters are either a dictionary of their own, whose entries
      `additional` holds, or the very dictionary being signed. */
  datatype ResourceCall = ResourceCall(
    httpMethod: HttpMethod, signUri: Option<string>, requestUri: Option<string>, headers: map<string, string>,
    additional: seq<Entry>, additionalIsSigned: bool, content: Option<string>)

  /** What one attempt leaves: the result, the signed dictionary's entries and the world. */
  datatype Attempted = Attempted(result: Result<string, Error>, entries: seq<Entry>, world: WorldState)

  /** What a pass, or the whole of `MakeOAuthRequest`, leaves: the result, the
      session, the signed dictionary's entries and the world. */
  datatype Reply = Reply(result: Result<string, Error>, session: SessionState, entries: seq<Entry>, world: WorldState)

  function CallOf(httpMethod: HttpMethod, signUri: Option<string>, requestUri: Option<string>, headers: map<string, string>,
                  parametersToSign: Dict?, additionalParameters: Dict?, content: Option<string>): ResourceCall
    reads additionalParameters
  {
    var same := parametersToSign != null && additionalParameters == parametersToSign;
    ResourceCall(httpMethod, signUri, requestUri, headers, if same then [] else EntriesOf(additionalParameters), same, content)
  }

  /** The additional parameters as the copy loop enumerates them, after signing. */
  function AdditionalEntries(call: ResourceCall, signed: seq<Entry>): seq<Entry>
  {
    if call.additionalIsSigned then signed else call.additional
  }

  /** The session state `Sign` reads. */
  function ContextOf(env: Environment, s: SessionState): SigningContext
  {
    SigningContext(env.settings.signatureType, env.consumerKey, env.consumerSecret, env.settings.callbackUrl,
                   env.settings.requestTokenUrl, s.token, s.tokenSecret, s.verifier)
  }

  /** `Sign` draws a nonce once `oauth_version` has been added. */
  function NonceDraws(entries: seq<Entry>): nat
  {
    if OAUTH_VERSION_KEY in KeysOf(entries) then 0 else 1
  }

  /** `Sign` reads the clock once `oauth_version` and `oauth_nonce` have been added. */
  function ClockReadings(entries: seq<Entry>): nat
  {
    if OAUTH_VERSION_KEY in KeysOf(entries) || OAUTH_NONCE_KEY in KeysOf(entries) then 0 else 1
  }

  /** `Sign` on a dictionary holding `entries`, with the next nonce and clock reading. */
  function SignStep(env: Environment, s: SessionState, w: WorldState, httpMethod: HttpMethod, requestUri: Option<string>,
                    entries: seq<Entry>): Signed
  {
    var effect := SignEffect(ContextOf(env, s), httpMethod.name, requestUri, entries,
                             Nonce(env.nonceAt(w.draws)), Timestamp(env.clockAt(w.clockReads)), env.platform);
    var drawn := if requestUri.Some? then NonceDraws(entries) else 0;
    var read := if requestUri.Some? then ClockReadings(entries) else 0;
    Signed(effect.0, effect.1, w.(draws := w.draws + drawn, clockReads := w.clockReads + read))
  }

  /** `SignStep` on a URI, case by case: a refused protocol parameter, a signature
      that cannot be computed, a refused signature, or the signature added. */
  lemma SignStepCases(env: Environment, s: SessionState, w: WorldState, httpMethod: HttpMethod, uri: string,
                      entries: seq<Entry>)
    ensures var ctx := ContextOf(env, s);
            var added := AddEach(entries, ProtocolParameters(ctx, uri, Nonce(env.nonceAt(w.draws)), Timestamp(env.clockAt(w.clockReads))));
            var after := w.(draws := w.draws + NonceDraws(entries), clockReads := w.clockReads + ClockReadings(entries));
            var signature := SignatureOf(ctx, httpMethod.name, uri, added.entries, env.platform);
            SignStep(env, s, w, httpMethod, Some(uri), entries)
            == if added.clash.Some? then Signed(added.entries, Fail(DuplicateKey(added.clash.value)), after)
               else if signature.Failure? then Signed(added.entries, Fail(signature.error), after)
               else if OAUTH_SIGNATURE_KEY in KeysOf(added.entries) then Signed(added.entries, Fail(DuplicateKey(OAUTH_SIGNATURE_KEY)), after)
               else Signed(added.entries + [(OAUTH_SIGNATURE_KEY, Text(signature.value))], Pass, after)
  {
  }

  /** `MakeRequest` with a dictionary holding `entries`: one exchange, unless the URI is null. */
  function SendStep(env: Environment, w: WorldState, leg: Leg, httpMethod: HttpMethod, requestUri: Option<string>,
                    headers: map<string, string>, entries: seq<Entry>, content: Option<string>): Sent
  {
    if requestUri.None? then Sent(Failure(NullReference), w)
    else
      var request := OutgoingRequest(httpMethod, requestUri.value, headers, entries, content, env.platform);
      var response := env.respond(|w.transcript|, request);
      Sent(ResponseResult(response), w.(transcript := w.transcript + [Exchange(leg, request, response)]))
  }

  /** A token request: sign a fresh dictionary and, if that succeeded, send it. */
  function TokenRequestStep(env: Environment, s: SessionState, w: WorldState, httpMethod: HttpMethod, uri: Option<string>,
                            leg: Leg): Sent
  {
    var signed := SignStep(env, s, w, httpMethod, uri, []);
    if signed.outcome.Fail? then Sent(Failure(signed.outcome.error), signed.world)
    else SendStep(env, signed.world, leg, httpMethod, uri, map[], signed.entries, None)
  }

  /** `GetRequestTokenAsync`. */
  function RequestTokenStep(env: Environment, s: SessionState, w: WorldState): Step<Outcome<Error>>
  {
    var sent := TokenRequestStep(env, s, w, env.settings.requestTokenMethod, env.settings.requestTokenUrl, RequestTokenLeg);
    var received := ReceiveRequestToken(sent.result, env.platform.parseResponse,
                                        TokenState(s.token, s.tokenSecret, s.requestTokenResponse));
    Step(received.0,
         s.(token := received.1.token, tokenSecret := received.1.tokenSecret, requestTokenResponse := received.1.responseParameters),
         sent.world)
  }

  /** The prompt the login dialog is shown for the authorisation link. */
  function PromptFor(settings: Settings, link: string): LoginPrompt
  {
    LoginPrompt(settings.loginTitle, settings.browserWidth, settings.browserHeight, link, settings.callbackUrl)
  }

  /** `GetAuthorizeToken`. */
  function AuthorizeTokenStep(env: Environment, s: SessionState, w: WorldState): Step<Result<Option<string>, Error>>
  {
    if IsNullOrEmpty(s.token) then Step(Failure(RequestTokenNotSet), s, w)
    else
      var link := AuthorizationLink(env.settings.authorizeUrl, s.token, env.settings.callbackUrl);
      if link.Failure? then Step(Failure(link.error), s, w)
      else
        var prompt := PromptFor(env.settings, link.value);
        var after := AfterLogin(env.login(|w.prompts|, prompt), s.token, s.verifier);
        Step(Success(AuthorizedToken(env.settings.checkVerifier, after.0, after.1)),
             s.(token := after.0, verifier := after.1), w.(prompts := w.prompts + [prompt]))
  }

  /** `GetAccessTokenAsync`. */
  function AccessTokenStep(env: Environment, s: SessionState, w: WorldState): Step<Result<Option<string>, Error>>
  {
    if !AccessGuardPasses(s.token, env.settings.checkVerifier, s.verifier) then Step(Failure(RequestTokenAndVerifierNotSet), s, w)
    else
      var sent := TokenRequestStep(env, s, w, env.settings.accessTokenMethod, env.settings.accessTokenUrl, AccessTokenLeg);
      var received := ReceiveAccessToken(sent.result, env.platform.parseResponse,
                                         TokenState(s.token, s.tokenSecret, s.accessTokenResponse));
      Step(received.0,
           s.(token := received.1.token, tokenSecret := received.1.tokenSecret, accessTokenResponse := received.1.responseParameters),
           sent.world)
  }

  /** The session with the token, its secret and the verifier cleared, as
      `AuthorizeAsync` starts. */
  function Reset(s: SessionState): SessionState
  {
    s.(token := None, tokenSecret := None, verifier := None)
  }

  /** `AuthorizeAsync`. */
  function AuthorizeStep(env: Environment, s: SessionState, w: WorldState): Step<Result<bool, Error>>
  {
    var requested := RequestTokenStep(env, Reset(s), w);
    if requested.result.Fail? then Step(Failure(ServiceNotAvailable(requested.result.error)), requested.session, requested.world)
    else
      var authorized := AuthorizeTokenStep(env, requested.session, requested.world);
      if authorized.result.Failure? then Step(Failure(authorized.result.error), authorized.session, authorized.world)
      else if IsNullOrEmpty(authorized.result.value) then Step(Success(false), authorized.session, authorized.world)
      else
        var accessed := AccessTokenStep(env, authorized.session, authorized.world);
        if accessed.result.Failure? then Step(Failure(accessed.result.error), accessed.session, accessed.world)
        else Step(Success(accessed.result.value.Some?), accessed.session, accessed.world)
  }

  /** The login at the start of each pass of `MakeOAuthRequest`. */
  function LogInStep(env: Environment, s: SessionState, w: WorldState): Step<Result<(), Error>>
  {
    if !IsNullOrEmpty(s.token) then Step(Success(()), s, w)
    else if !env.settings.autoLogin then Step(Failure(NotAuthorized), s, w)
    else
      var authorized := AuthorizeStep(env, s, w);
      if authorized.result.Failure? then Step(Failure(authorized.result.error), authorized.session, authorized.world)
      else if !authorized.result.value then Step(Failure(NotAuthorized), authorized.session, authorized.world)
      else Step(Success(()), authorized.session, authorized.world)
  }

  /** One attempt: sign, copy into a new dictionary, send. */
  function AttemptStep(env: Environment, s: SessionState, w: WorldState, call: ResourceCall, entries: seq<Entry>): Attempted
  {
    SendSigned(env, SignStep(env, s, w, call.httpMethod, call.signUri, entries), call)
  }

  /** The rest of an attempt once signing has returned. */
  function SendSigned(env: Environment, signed: Signed, call: ResourceCall): Attempted
  {
    if signed.outcome.Fail? then Attempted(Failure(signed.outcome.error), signed.entries, signed.world)
    else
      var all := signed.entries + AdditionalEntries(call, signed.entries);
      var copied := AddEach([], all);
      if copied.clash.Some? then Attempted(Failure(DuplicateKey(copied.clash.value)), signed.entries, signed.world)
      else
        var sent := SendStep(env, signed.world, ResourceLeg, call.httpMethod, call.requestUri, call.headers, all, call.content);
        Attempted(sent.result, signed.entries, sent.world)
  }

  /** One pass of the loop, and whether it ends in the 401 the loop retries. */
  function RoundStep(env: Environment, s: SessionState, w: WorldState, call: ResourceCall, entries: seq<Entry>): (Reply, bool)
  {
    PassAfterLogin(env, LogInStep(env, s, w), call, entries)
  }

  /** The rest of a pass once the login has returned: its error, or one attempt. */
  function PassAfterLogin(env: Environment, login: Step<Result<(), Error>>, call: ResourceCall, entries: seq<Entry>): (Reply, bool)
  {
    if login.result.Failure? then (Reply(Failure(login.result.error), login.session, entries, login.world), false)
    else
      var attempt := AttemptStep(env, login.session, login.world, call, entries);
      (Reply(attempt.result, login.session, attempt.entries, attempt.world), attempt.result == Failure(HttpError(UNAUTHORIZED)))
  }

  /** The session after a 401: no token and no token secret. */
  function Forget(s: SessionState): SessionState
  {
    s.(token := None, tokenSecret := None)
  }

  /** The loop of `MakeOAuthRequest` with `retries` passes left and the last 401 seen. */
  function RetryStep(env: Environment, s: SessionState, w: WorldState, call: ResourceCall, entries: seq<Entry>,
                     retries: nat, lastError: Option<Error>): Reply
    decreases retries
  {
    if retries == 0 then
      Reply(if lastError.Some? then Failure(lastError.value) else Failure(NotAuthorized), s, entries, w)
    else
      var pass := RoundStep(env, s, w, call, entries);
      if !pass.1 then pass.0
      else RetryStep(env, Forget(pass.0.session), pass.0.world, call, NonProtocolEntries(pass.0.entries),
                     retries - 1, Some(pass.0.result.error))
  }

  /** One pass of the loop: it ends the loop unless it was answered 401, and then
      the rest of the loop starts from the forgotten token and protocol parameters. */
  lemma RetryUnfolds(env: Environment, s: SessionState, w: WorldState, call: ResourceCall, entries: seq<Entry>,
                     retries: nat, lastError: Option<Error>)
    requires retries > 0
    ensures var pass := RoundStep(env, s, w, call, entries);
            RetryStep(env, s, w, call, entries, retries, lastError)
            == if !pass.1 then pass.0
               else RetryStep(env, Forget(pass.0.session), pass.0.world, call, NonProtocolEntries(pass.0.entries),
                              retries - 1, Some(pass.0.result.error))
  {
  }

  /** `MakeOAuthRequest`: two passes at most. */
  function OAuthRequestStep(env: Environment, s: SessionState, w: WorldState, call: ResourceCall, entries: seq<Entry>): Reply
  {
    RetryStep(env, s, w, call, entries, 2, None)
  }

  /** How `GetRequestTokenAsync` handles the result of its request: an error is
      passed on; a non-empty body is parsed and kept; when it holds `oauth_token`
      the token is set, then the secret, whose absence throws after the token has
      already been replaced. */
  function ReceiveRequestToken(r: Result<string, Error>, parse: string -> map<string, string>, state: TokenState): (Outcome<Error>, TokenState)
  {
    if r.Failure? then (Fail(r.error), state)
    else if r.value == "" then (Pass, state)
    else
      var ps := parse(r.value);
      if OAUTH_TOKEN_KEY !in ps then (Pass, state.(responseParameters := Some(ps)))
      else if OAUTH_TOKEN_SECRET_KEY !in ps then
        (Fail(KeyNotFound(OAUTH_TOKEN_SECRET_KEY)), state.(token := Some(ps[OAUTH_TOKEN_KEY]), responseParameters := Some(ps)))
      else (Pass, TokenState(Some(ps[OAUTH_TOKEN_KEY]), Some(ps[OAUTH_TOKEN_SECRET_KEY]), Some(ps)))
  }

  /** How `GetAccessTokenAsync` handles the result of its request: an error is
      passed on; a non-empty body is parsed and kept, and the token and the secret
      it holds replace the session's; the (possibly new) token is returned. */
  function ReceiveAccessToken(r: Result<string, Error>, parse: string -> map<string, string>, state: TokenState): (Result<Option<string>, Error>, TokenState)
  {
    if r.Failure? then (Failure(r.error), state)
    else if r.value == "" then (Success(state.token), state)
    else
      var ps := parse(r.value);
      var after := TokenState(if OAUTH_TOKEN_KEY in ps then Some(ps[OAUTH_TOKEN_KEY]) else state.token,
                              if OAUTH_TOKEN_SECRET_KEY in ps then Some(ps[OAUTH_TOKEN_SECRET_KEY]) else state.tokenSecret,
                              Some(ps));
      (Success(after.token), after)
  }

  /** The guard of `GetAccessTokenAsync`: a request token, and a verifier when one is required. */
  predicate AccessGuardPasses(token: Option<string>, checkVerifier: bool, verifier: Option<string>)
  {
    !IsNullOrEmpty(token) && !(checkVerifier && IsNullOrEmpty(verifier))
  }

  /** The token and verifier after the login dialog: taken from the callback URL's
      parameters when the user completed the login, kept otherwise. */
  function AfterLogin(login: LoginResult, token: Option<string>, verifier: Option<string>): (Option<string>, Option<string>)
  {
    if login.isOk && login.callbackParameters.Some? then
      var ps := login.callbackParameters.value;
      (if OAUTH_TOKEN_KEY in ps then Some(ps[OAUTH_TOKEN_KEY]) else token,
       if OAUTH_VERIFIER_KEY in ps then Some(ps[OAUTH_VERIFIER_KEY]) else verifier)
    else (token, verifier)
  }

  /** What `GetAuthorizeToken` returns: the token, unless a verifier is required and missing. */
  function AuthorizedToken(checkVerifier: bool, token: Option<string>, verifier: Option<string>): Option<string>
  {
    if checkVerifier && IsNullOrEmpty(verifier) then None else token
  }

  /** `after` extends `before` by one exchange of `leg` that got a success response. */
  ghost predicate Answered(before: seq<Exchange>, after: seq<Exchange>, leg: Leg)
  {
    |after| == |before| + 1 && after[..|before|] == before && after[|before|].leg == leg && after[|before|].response.Ok?
  }

  /** `after` extends `before` with token requests only. */
  ghost predicate NoResourceRequests(before: seq<Exchange>, after: seq<Exchange>)
  {
    |before| <= |after| && after[..|before|] == before
    && forall i :: |before| <= i < |after| ==> after[i].leg != ResourceLeg
  }

  /** The `AuthorizationLink` property: the authorisation page with the request
      token (as it is) and the escaped callback URL as query parameters. Escaping a
      null callback URL throws, and so does building a URI from a string without
      the authorisation URL. */
  function AuthorizationLink(authorizeUrl: Option<string>, token: Option<string>, callbackUrl: Option<string>): (link: Result<string, Error>)
    ensures callbackUrl.None? ==> link == Failure(ArgumentNull("stringToEscape"))
    ensures callbackUrl.Some? && authorizeUrl.None? ==> link == Failure(InvalidUri)
    ensures link.Success? <==> callbackUrl.Some? && authorizeUrl.Some?
  {
    if callbackUrl.None? then Failure(ArgumentNull("stringToEscape"))
    else if authorizeUrl.None? then Failure(InvalidUri)
    else Success(authorizeUrl.value + "?" + OAUTH_TOKEN_KEY + "=" + (if token.Some? then token.value else "")
                 + "&" + OAUTH_CALLBACK_KEY + "=" + Escape(callbackUrl.value))
  }

  lemma NoResourceRequestsTransitive(a: seq<Exchange>, b: seq<Exchange>, c: seq<Exchange>)
    requires NoResourceRequests(a, b) && NoResourceRequests(b, c)
    ensures NoResourceRequests(a, c)
  {
    assert c[..|a|] == c[..|b|][..|a|];
    forall i | |a| <= i < |c| ensures c[i].leg != ResourceLeg {
      if i < |b| {
        assert c[i] == c[..|b|][i];
      }
    }
  }

  /** The entries whose key is not in `keys`, in order. */
  function Without(entries: seq<Entry>, keys: set<string>): seq<Entry>
  {
    if entries == [] then []
    else (if entries[0].0 in keys then [] else [entries[0]]) + Without(entries[1..], keys)
  }

  /** `Dictionary.Remove` of each key in turn. */
  function RemoveKeys(entries: seq<Entry>, keys: seq<string>): seq<Entry>
  {
    if keys == [] then entries else RemoveKey(RemoveKeys(entries, keys[..|keys| - 1]), keys[|keys| - 1])
  }

  lemma {:induction false} RemoveKeyWithout(entries: seq<Entry>, keys: set<string>, k: string)
    ensures RemoveKey(Without(entries, keys), k) == Without(entries, keys + {k})
  {
    if entries != [] {
      RemoveKeyWithout(entries[1..], keys, k);
      var head := if entries[0].0 in keys then [] else [entries[0]];
      RemoveKeyAppend(head, Without(entries[1..], keys), k);
      if entries[0].0 !in keys {
        assert RemoveKey(head, k) == (if entries[0].0 == k then [] else head) by {
          assert head[1..] == [];
        }
      }
    }
  }

  lemma {:induction false} WithoutNothing(entries: seq<Entry>)
    ensures Without(entries, {}) == entries
  {
    if entries != [] {
      WithoutNothing(entries[1..]);
      assert entries == [entries[0]] + entries[1..];
    }
  }

  function SetOf(keys: seq<string>): set<string>
  {
    set k | k in keys
  }

  /** Removing keys one by one removes every entry whose key is one of them. */
  lemma {:induction false} RemoveKeysWithout(entries: seq<Entry>, keys: seq<string>)
    ensures RemoveKeys(entries, keys) == Without(entries, SetOf(keys))
    decreases |keys|
  {
    if keys == [] {
      WithoutNothing(entries);
      assert SetOf(keys) == {};
    } else {
      var init := keys[..|keys| - 1];
      RemoveKeysWithout(entries, init);
      RemoveKeyWithout(entries, SetOf(init), keys[|keys| - 1]);
      assert (SetOf(init)) + {keys[|keys| - 1]} == SetOf(keys) by {
        assert keys == init + [keys[|keys| - 1]];
      }
    }
  }

  /** Removing exactly the protocol keys leaves the other entries. */
  lemma {:induction false} WithoutProtocolKeys(entries: seq<Entry>, keys: set<string>)
    requires forall i :: 0 <= i < |entries| ==> (entries[i].0 in keys <==> IsProtocolKey(entries[i].0))
    ensures Without(entries, keys) == NonProtocolEntries(entries)
  {
    if entries != [] {
      WithoutProtocolKeys(entries[1..], keys);
    }
  }

  /** The keys of the protocol entries. */
  lemma ProtocolKeysOf(entries: seq<Entry>)
    ensures forall i :: 0 <= i < |entries| ==>
      (entries[i].0 in SetOf(KeysOf(ProtocolEntries(entries))) <==> IsProtocolKey(entries[i].0))
  {
    var pe := ProtocolEntries(entries);
    ProtocolEntriesMembers(entries);
    forall i | 0 <= i < |entries|
      ensures entries[i].0 in SetOf(KeysOf(pe)) <==> IsProtocolKey(entries[i].0)
    {
      if IsProtocolKey(entries[i].0) {
        assert entries[i] in pe;
        var j :| 0 <= j < |pe| && pe[j] == entries[i];
        assert KeysOf(pe)[j] == entries[i].0;
      }
      if entries[i].0 in KeysOf(pe) {
        var j :| 0 <= j < |KeysOf(pe)| && KeysOf(pe)[j] == entries[i].0;
        assert pe[j] in pe;
      }
    }
  }

  /** `after` continues `before`. */
  ghost predicate Extends(after: seq<Exchange>, before: seq<Exchange>)
  {
    |before| <= |after| && after[..|before|] == before
  }

  /** The resource requests since `a` are those up to `b` followed by those after. */
  lemma ResourceExchangesSince(a: seq<Exchange>, b: seq<Exchange>, c: seq<Exchange>)
    requires Extends(b, a) && Extends(c, b)
    ensures Extends(c, a)
    ensures ResourceExchanges(c[|a|..]) == ResourceExchanges(b[|a|..]) + ResourceExchanges(c[|b|..])
  {
    assert c[..|a|] == c[..|b|][..|a|];
    assert c[|a|..] == b[|a|..] + c[|b|..] by {
      assert c == b + c[|b|..];
    }
    ResourceExchangesAppend(b[|a|..], c[|b|..]);
  }

  /** Token requests add no resource request. */
  lemma NoResourceRequestsNone(before: seq<Exchange>, after: seq<Exchange>)
    requires NoResourceRequests(before, after)
    ensures Extends(after, before)
    ensures ResourceExchanges(after[|before|..]) == []
  {
    ResourceExchangesNone(after[|before|..]);
  }

  /** One resource request sent. */
  lemma SentOne(before: seq<Exchange>, after: seq<Exchange>)
    requires |after| > |before|
    requires |before| <= |after| <= |before| + 1 && after[..|before|] == before
    requires after[|before|].leg == ResourceLeg
    ensures ResourceExchanges(after[|before|..]) == [after[|before|]]
  {
    assert after[|before|..] == [after[|before|]];
    assert after[|before|..][1..] == [];
  }

  lemma {:induction false} ResourceExchangesNone(t: seq<Exchange>)
    requires forall i :: 0 <= i < |t| ==> t[i].leg != ResourceLeg
    ensures ResourceExchanges(t) == []
  {
    if t != [] {
      ResourceExchangesNone(t[1..]);
    }
  }

  /** The request `MakeRequest` sends for the signed `entries`. */
  function OutgoingRequest(httpMethod: HttpMethod, uri: string, headers: map<string, string>, entries: seq<Entry>,
                           content: Option<string>, platform: Platform): Request
  {
    BuildRequest(httpMethod, uri, AuthorizationHeader(entries), RequestParameters(entries), headers, content, platform)
  }

  // ---------------------------------------------------------------------------
  // Properties of the session's operations

  /** Signing sends nothing and shows nothing, keeps the caller's other entries,
      and draws at most one nonce and one clock reading; a successful signing drew
      exactly one of each. */
  lemma SignStepFacts(env: Environment, s: SessionState, w: WorldState, httpMethod: HttpMethod, requestUri: Option<string>,
                      entries: seq<Entry>)
    ensures var signed := SignStep(env, s, w, httpMethod, requestUri, entries);
      && signed.world.transcript == w.transcript && signed.world.prompts == w.prompts
      && w.draws <= signed.world.draws <= w.draws + 1 && w.clockReads <= signed.world.clockReads <= w.clockReads + 1
      && NonProtocolEntries(signed.entries) == NonProtocolEntries(entries)
      && (signed.outcome.Pass? ==> requestUri.Some? && signed.world.draws == w.draws + 1 && signed.world.clockReads == w.clockReads + 1)
      && (signed.outcome.Fail? ==>
            signed.outcome.error == NullReference || signed.outcome.error == CertificateUnavailable || signed.outcome.error.DuplicateKey?)
  {
    var ctx := ContextOf(env, s);
    var nonce := Nonce(env.nonceAt(w.draws));
    var timestamp := Timestamp(env.clockAt(w.clockReads));
    SignEffectErrors(ctx, httpMethod.name, requestUri, entries, nonce, timestamp, env.platform);
    SignKeepsOtherEntries(ctx, httpMethod.name, requestUri, entries, nonce, timestamp, env.platform);
    if requestUri.Some? && SignEffect(ctx, httpMethod.name, requestUri, entries, nonce, timestamp, env.platform).1.Pass? {
      SignPassesWithoutVersionOrNonce(ctx, httpMethod.name, requestUri.value, entries, nonce, timestamp, env.platform);
    }
  }

  /** Signing a fresh dictionary: the Adds cannot clash, so it fails only when the
      signature cannot be computed, and otherwise leaves the protocol parameters
      and the signature; either way one nonce is drawn and the clock read once. */
  lemma SignFresh(env: Environment, s: SessionState, w: WorldState, httpMethod: HttpMethod, uri: string)
    ensures var ctx := ContextOf(env, s);
      var p := ProtocolParameters(ctx, uri, Nonce(env.nonceAt(w.draws)), Timestamp(env.clockAt(w.clockReads)));
      var signature := SignatureOf(ctx, httpMethod.name, uri, p, env.platform);
      var signed := SignStep(env, s, w, httpMethod, Some(uri), []);
      && signed.world == w.(draws := w.draws + 1, clockReads := w.clockReads + 1)
      && (signature.Failure? ==> signed.outcome == Fail(signature.error))
      && (signature.Success? ==> signed.outcome == Pass && signed.entries == p + [(OAUTH_SIGNATURE_KEY, Text(signature.value))])
      && (signature.Failure? ==> signed.entries == p)
  {
    SignFreshEffect(ContextOf(env, s), httpMethod.name, uri, Nonce(env.nonceAt(w.draws)), Timestamp(env.clockAt(w.clockReads)),
                    env.platform);
  }

  /** A token request signs a fresh dictionary, so it fails before sending only
      for a null URI or a signature that cannot be computed; otherwise exactly one
      exchange of its leg goes out, carrying the protocol parameters and the
      signature over them, and the response decides the result. */
  lemma TokenRequestSends(env: Environment, s: SessionState, w: WorldState, httpMethod: HttpMethod, uri: Option<string>, leg: Leg)
    ensures var sent := TokenRequestStep(env, s, w, httpMethod, uri, leg);
      && (uri.None? ==> sent == Sent(Failure(NullReference), w))
      && (uri.Some? ==>
            var ctx := ContextOf(env, s);
            var p := ProtocolParameters(ctx, uri.value, Nonce(env.nonceAt(w.draws)), Timestamp(env.clockAt(w.clockReads)));
            var signature := SignatureOf(ctx, httpMethod.name, uri.value, p, env.platform);
            var drawn := w.(draws := w.draws + 1, clockReads := w.clockReads + 1);
            if signature.Failure? then sent == Sent(Failure(signature.error), drawn)
            else
              var request := OutgoingRequest(httpMethod, uri.value, map[], p + [(OAUTH_SIGNATURE_KEY, Text(signature.value))],
                                             None, env.platform);
              var response := env.respond(|w.transcript|, request);
              sent == Sent(ResponseResult(response), drawn.(transcript := w.transcript + [Exchange(leg, request, response)])))
  {
    if uri.Some? {
      SignFresh(env, s, w, httpMethod, uri.value);
    }
  }

  /** The errors signing and sending can raise. */
  predicate SignOrSendError(e: Error)
  {
    e == NullReference || e == CertificateUnavailable || e.DuplicateKey? || e.HttpError? || e == TransportError
  }

  /** A token request sends at most one exchange, of its own leg, shows nothing,
      and draws at most one nonce and clock reading; its result is the body of an
      answered exchange, or a signing or transport error. */
  lemma TokenRequestShape(env: Environment, s: SessionState, w: WorldState, httpMethod: HttpMethod, uri: Option<string>, leg: Leg)
    ensures var sent := TokenRequestStep(env, s, w, httpMethod, uri, leg);
      && sent.world.prompts == w.prompts
      && w.draws <= sent.world.draws && w.clockReads <= sent.world.clockReads
      && Extends(sent.world.transcript, w.transcript) && |sent.world.transcript| <= |w.transcript| + 1
      && (forall i :: |w.transcript| <= i < |sent.world.transcript| ==> sent.world.transcript[i].leg == leg)
      && (sent.result.Success? ==> Answered(w.transcript, sent.world.transcript, leg)
                                   && sent.world.transcript[|w.transcript|].response == Ok(sent.result.value))
      && (sent.result.Failure? ==> SignOrSendError(sent.result.error))
  {
    TokenRequestSends(env, s, w, httpMethod, uri, leg);
    if uri.Some? {
      var ctx := ContextOf(env, s);
      var p := ProtocolParameters(ctx, uri.value, Nonce(env.nonceAt(w.draws)), Timestamp(env.clockAt(w.clockReads)));
      var signature := SignatureOf(ctx, httpMethod.name, uri.value, p, env.platform);
      SignatureErrors(ctx, httpMethod.name, uri.value, p, env.platform);
      if signature.Success? {
        var request := OutgoingRequest(httpMethod, uri.value, map[], p + [(OAUTH_SIGNATURE_KEY, Text(signature.value))], None, env.platform);
        var t := w.transcript + [Exchange(leg, request, env.respond(|w.transcript|, request))];
        assert t[..|w.transcript|] == w.transcript;
      }
    }
  }

  /** The request-token leg sends one token request at most, shows nothing, and
      leaves the verifier and the access-token response alone; when it returns
      normally its request was answered. */
  lemma RequestTokenFacts(env: Environment, s: SessionState, w: WorldState)
    ensures var r := RequestTokenStep(env, s, w);
      && NoResourceRequests(w.transcript, r.world.transcript) && |r.world.transcript| <= |w.transcript| + 1
      && r.world.prompts == w.prompts && w.draws <= r.world.draws && w.clockReads <= r.world.clockReads
      && r.session.verifier == s.verifier && r.session.accessTokenResponse == s.accessTokenResponse
      && (r.result.Pass? ==> Answered(w.transcript, r.world.transcript, RequestTokenLeg))
  {
    TokenRequestShape(env, s, w, env.settings.requestTokenMethod, env.settings.requestTokenUrl, RequestTokenLeg);
  }

  /** `GetAuthorizeToken` sends nothing and draws nothing. It shows the login
      dialog once, with the authorisation link, exactly when there is a request
      token and the link can be built, and fails otherwise without changing
      anything. A token it returns is the session's new token, and comes with a
      verifier when one is required. */
  lemma AuthorizeTokenFacts(env: Environment, s: SessionState, w: WorldState)
    ensures var r := AuthorizeTokenStep(env, s, w);
      var link := AuthorizationLink(env.settings.authorizeUrl, s.token, env.settings.callbackUrl);
      && r.world.transcript == w.transcript && r.world.draws == w.draws && r.world.clockReads == w.clockReads
      && r.session.tokenSecret == s.tokenSecret
      && r.session.requestTokenResponse == s.requestTokenResponse && r.session.accessTokenResponse == s.accessTokenResponse
      && (r.result.Success? <==> !IsNullOrEmpty(s.token) && link.Success?)
      && (r.result.Success? ==> r.world.prompts == w.prompts + [PromptFor(env.settings, link.value)])
      && (r.result.Failure? ==> r.world == w && r.session == s)
      && (IsNullOrEmpty(s.token) ==> r.result == Failure(RequestTokenNotSet))
      && (r.result.Success? && r.result.value.Some? ==>
            r.result.value == r.session.token && (env.settings.checkVerifier ==> !IsNullOrEmpty(r.session.verifier)))
  {
  }

  /** `GetAccessTokenAsync` without a request token, or without a required
      verifier, fails and changes nothing. Otherwise it sends one token request,
      shows nothing, and leaves the verifier and the request-token response alone;
      when it returns normally its request was answered and it returns the
      session's new token, which is set. */
  lemma AccessTokenFacts(env: Environment, s: SessionState, w: WorldState)
    ensures var r := AccessTokenStep(env, s, w);
      && NoResourceRequests(w.transcript, r.world.transcript) && |r.world.transcript| <= |w.transcript| + 1
      && r.world.prompts == w.prompts && w.draws <= r.world.draws && w.clockReads <= r.world.clockReads
      && r.session.verifier == s.verifier && r.session.requestTokenResponse == s.requestTokenResponse
      && (!AccessGuardPasses(s.token, env.settings.checkVerifier, s.verifier) ==> r == Step(Failure(RequestTokenAndVerifierNotSet), s, w))
      && (r.result.Success? ==>
            Answered(w.transcript, r.world.transcript, AccessTokenLeg) && r.result.value.Some? && r.result.value == r.session.token)
      && (r.result.Failure? ==> SignOrSendError(r.result.error) || r.result.error == RequestTokenAndVerifierNotSet)
  {
    TokenRequestShape(env, s, w, env.settings.accessTokenMethod, env.settings.accessTokenUrl, AccessTokenLeg);
  }

  /** `AuthorizeAsync` sends token requests only, at most two, and shows the login
      dialog at most once; it never draws fewer nonces or clock readings. */
  lemma AuthorizeSendsTokenRequestsOnly(env: Environment, s: SessionState, w: WorldState)
    ensures var r := AuthorizeStep(env, s, w);
      && NoResourceRequests(w.transcript, r.world.transcript) && |r.world.transcript| <= |w.transcript| + 2
      && |w.prompts| <= |r.world.prompts| <= |w.prompts| + 1
      && w.draws <= r.world.draws && w.clockReads <= r.world.clockReads
  {
    var requested := RequestTokenStep(env, Reset(s), w);
    RequestTokenFacts(env, Reset(s), w);
    if requested.result.Pass? {
      var authorized := AuthorizeTokenStep(env, requested.session, requested.world);
      AuthorizeTokenFacts(env, requested.session, requested.world);
      if authorized.result.Success? && !IsNullOrEmpty(authorized.result.value) {
        AccessTokenFacts(env, authorized.session, authorized.world);
        NoResourceRequestsTransitive(w.transcript, authorized.world.transcript,
                                     AccessTokenStep(env, authorized.session, authorized.world).world.transcript);
      }
    }
  }

  /** A fresh dictionary signed for a session without a token or a verifier
      carries neither `oauth_token` nor `oauth_verifier`. */
  lemma SignFreshWithoutToken(env: Environment, s: SessionState, w: WorldState, httpMethod: HttpMethod, uri: Option<string>)
    requires s.token.None? && s.verifier.None?
    ensures var signed := SignStep(env, s, w, httpMethod, uri, []);
      OAUTH_TOKEN_KEY !in KeysOf(signed.entries) && OAUTH_VERIFIER_KEY !in KeysOf(signed.entries)
  {
    if uri.Some? {
      var ctx := ContextOf(env, s);
      var p := ProtocolParameters(ctx, uri.value, Nonce(env.nonceAt(w.draws)), Timestamp(env.clockAt(w.clockReads)));
      SignFresh(env, s, w, httpMethod, uri.value);
      ProtocolParametersWithoutToken(ctx, uri.value, Nonce(env.nonceAt(w.draws)), Timestamp(env.clockAt(w.clockReads)));
      var signature := SignatureOf(ctx, httpMethod.name, uri.value, p, env.platform);
      if signature.Success? {
        KeysOfAppend(p, [(OAUTH_SIGNATURE_KEY, Text(signature.value))]);
      }
    }
  }

  /** Without a token or a verifier, the protocol parameters hold neither key. */
  lemma ProtocolParametersWithoutToken(ctx: SigningContext, uri: string, nonce: string, timestamp: string)
    requires ctx.token.None? && ctx.verifier.None?
    ensures var keys := KeysOf(ProtocolParameters(ctx, uri, nonce, timestamp));
      OAUTH_TOKEN_KEY !in keys && OAUTH_VERIFIER_KEY !in keys
  {
    ProtocolParameterKeys(ctx, uri, nonce, timestamp);
  }

  /** The request-token request of `AuthorizeAsync` is signed over the session
      with the token, its secret and the verifier cleared, so it carries neither
      `oauth_token` nor `oauth_verifier`, whatever the session held; when it is
      signed, it is the first exchange sent. */
  lemma AuthorizeRequestLegIsFresh(env: Environment, s: SessionState, w: WorldState)
    ensures var r := AuthorizeStep(env, s, w);
      var signed := SignStep(env, Reset(s), w, env.settings.requestTokenMethod, env.settings.requestTokenUrl, []);
      && OAUTH_TOKEN_KEY !in KeysOf(signed.entries) && OAUTH_VERIFIER_KEY !in KeysOf(signed.entries)
      && (signed.outcome.Pass? ==>
            && |r.world.transcript| > |w.transcript|
            && r.world.transcript[|w.transcript|].leg == RequestTokenLeg
            && r.world.transcript[|w.transcript|].request
               == OutgoingRequest(env.settings.requestTokenMethod, env.settings.requestTokenUrl.value, map[], signed.entries, None, env.platform))
  {
    SignFreshWithoutToken(env, Reset(s), w, env.settings.requestTokenMethod, env.settings.requestTokenUrl);
    var signed := SignStep(env, Reset(s), w, env.settings.requestTokenMethod, env.settings.requestTokenUrl, []);
    if signed.outcome.Pass? {
      RequestLegSendsSigned(env, s, w);
      AuthorizeExtends(env, s, w);
    }
  }

  /** When the request-token leg of `AuthorizeAsync` is signed, its one exchange
      carries the signed dictionary. */
  lemma RequestLegSendsSigned(env: Environment, s: SessionState, w: WorldState)
    ensures var requested := RequestTokenStep(env, Reset(s), w);
      var signed := SignStep(env, Reset(s), w, env.settings.requestTokenMethod, env.settings.requestTokenUrl, []);
      signed.outcome.Pass? ==>
        && |requested.world.transcript| == |w.transcript| + 1
        && requested.world.transcript[|w.transcript|].leg == RequestTokenLeg
        && requested.world.transcript[|w.transcript|].request
           == OutgoingRequest(env.settings.requestTokenMethod, env.settings.requestTokenUrl.value, map[], signed.entries, None, env.platform)
  {
    var url := env.settings.requestTokenUrl;
    if url.Some? {
      SignFresh(env, Reset(s), w, env.settings.requestTokenMethod, url.value);
      TokenRequestSends(env, Reset(s), w, env.settings.requestTokenMethod, url, RequestTokenLeg);
    }
  }

  /** Everything `AuthorizeAsync` sends comes after the request-token leg's exchange. */
  lemma AuthorizeExtends(env: Environment, s: SessionState, w: WorldState)
    ensures Extends(AuthorizeStep(env, s, w).world.transcript, RequestTokenStep(env, Reset(s), w).world.transcript)
  {
    var requested := RequestTokenStep(env, Reset(s), w);
    if requested.result.Pass? {
      var authorized := AuthorizeTokenStep(env, requested.session, requested.world);
      AuthorizeTokenFacts(env, requested.session, requested.world);
      if authorized.result.Success? && !IsNullOrEmpty(authorized.result.value) {
        AccessTokenFacts(env, authorized.session, authorized.world);
      }
    }
  }

  /** `AuthorizeAsync` fails with "Service is not available" exactly when the
      request-token leg fails, and then wraps that leg's error. */
  lemma AuthorizeServiceNotAvailable(env: Environment, s: SessionState, w: WorldState)
    ensures var r := AuthorizeStep(env, s, w);
      var requested := RequestTokenStep(env, Reset(s), w);
      && (r.result.Failure? && r.result.error.ServiceNotAvailable? <==> requested.result.Fail?)
      && (requested.result.Fail? ==>
            r == Step(Failure(ServiceNotAvailable(requested.result.error)), requested.session, requested.world))
  {
    var requested := RequestTokenStep(env, Reset(s), w);
    if requested.result.Pass? {
      var authorized := AuthorizeTokenStep(env, requested.session, requested.world);
      AuthorizeTokenFacts(env, requested.session, requested.world);
      if authorized.result.Success? && !IsNullOrEmpty(authorized.result.value) {
        AccessTokenFacts(env, authorized.session, authorized.world);
      }
    }
  }

  /** `AuthorizeAsync` returns false exactly when the request-token leg succeeded
      and the login dialog yielded no token (the user did not complete it, or the
      required verifier is missing); then no access-token request is sent. */
  lemma AuthorizeDeclined(env: Environment, s: SessionState, w: WorldState)
    ensures var r := AuthorizeStep(env, s, w);
      var requested := RequestTokenStep(env, Reset(s), w);
      var authorized := AuthorizeTokenStep(env, requested.session, requested.world);
      && (r.result == Success(false)
          <==> requested.result.Pass? && authorized.result.Success? && IsNullOrEmpty(authorized.result.value))
      && (r.result == Success(false) ==>
            r.session == authorized.session && r.world == authorized.world && r.world.transcript == requested.world.transcript)
  {
    var requested := RequestTokenStep(env, Reset(s), w);
    var authorized := AuthorizeTokenStep(env, requested.session, requested.world);
    AuthorizeTokenFacts(env, requested.session, requested.world);
    if requested.result.Pass? && authorized.result.Success? && !IsNullOrEmpty(authorized.result.value) {
      AccessTokenFacts(env, authorized.session, authorized.world);
    }
  }

  /** `AuthorizeAsync` returns true exactly when all three legs succeed. Then the
      new exchanges are the answered request-token exchange and the answered
      access-token exchange, the login dialog was shown once, and a token is set. */
  lemma AuthorizeGranted(env: Environment, s: SessionState, w: WorldState)
    ensures var r := AuthorizeStep(env, s, w);
      var requested := RequestTokenStep(env, Reset(s), w);
      var authorized := AuthorizeTokenStep(env, requested.session, requested.world);
      var accessed := AccessTokenStep(env, authorized.session, authorized.world);
      && (r.result == Success(true)
          <==> requested.result.Pass? && authorized.result.Success? && !IsNullOrEmpty(authorized.result.value) && accessed.result.Success?)
      && (r.result == Success(true) ==>
            && Answered(w.transcript, requested.world.transcript, RequestTokenLeg)
            && Answered(requested.world.transcript, r.world.transcript, AccessTokenLeg)
            && |r.world.prompts| == |w.prompts| + 1
            && r.session == accessed.session && r.session.token.Some?)
  {
    var requested := RequestTokenStep(env, Reset(s), w);
    var authorized := AuthorizeTokenStep(env, requested.session, requested.world);
    RequestTokenFacts(env, Reset(s), w);
    AuthorizeTokenFacts(env, requested.session, requested.world);
    if requested.result.Pass? && authorized.result.Success? && !IsNullOrEmpty(authorized.result.value) {
      AccessTokenFacts(env, authorized.session, authorized.world);
    }
  }

  /** The login at the start of a pass: with a token nothing happens; without one
      it fails with "Not authorized" when automatic login is off, and otherwise
      runs `AuthorizeAsync`, passing its error on and turning `false` into "Not
      authorized". It never sends a resource request. */
  lemma LogInFacts(env: Environment, s: SessionState, w: WorldState)
    ensures var r := LogInStep(env, s, w);
      var authorized := AuthorizeStep(env, s, w);
      && NoResourceRequests(w.transcript, r.world.transcript)
      && w.draws <= r.world.draws && w.clockReads <= r.world.clockReads
      && (!IsNullOrEmpty(s.token) ==> r == Step(Success(()), s, w))
      && (IsNullOrEmpty(s.token) && !env.settings.autoLogin ==> r == Step(Failure(NotAuthorized), s, w))
      && (IsNullOrEmpty(s.token) && env.settings.autoLogin ==>
            && r.session == authorized.session && r.world == authorized.world
            && (r.result.Success? <==> authorized.result == Success(true))
            && (authorized.result == Success(false) ==> r.result == Failure(NotAuthorized))
            && (authorized.result.Failure? ==> r.result == Failure(authorized.result.error)))
  {
    if IsNullOrEmpty(s.token) && env.settings.autoLogin {
      AuthorizeSendsTokenRequestsOnly(env, s, w);
    }
  }

  /** After signing, an attempt fails before sending when signing failed, or
      when the copy repeats a key; otherwise exactly one resource request goes out
      (unless the request URI is null), carrying everything copied, and its
      response decides the result. */
  lemma SendSignedCases(env: Environment, signed: Signed, call: ResourceCall)
    ensures var a := SendSigned(env, signed, call);
      var w := signed.world;
      var all := signed.entries + AdditionalEntries(call, signed.entries);
      && a.entries == signed.entries
      && a.world.prompts == w.prompts && a.world.draws == w.draws && a.world.clockReads == w.clockReads
      && Extends(a.world.transcript, w.transcript) && |a.world.transcript| <= |w.transcript| + 1
      && (|a.world.transcript| > |w.transcript| ==>
            a.world.transcript[|w.transcript|].leg == ResourceLeg && a.result == ResponseResult(a.world.transcript[|w.transcript|].response))
      && (signed.outcome.Fail? ==> a.result == Failure(signed.outcome.error) && a.world.transcript == w.transcript)
      && (signed.outcome.Pass? ==>
            && (!DistinctKeys(all) ==> a.world.transcript == w.transcript)
            && (DistinctKeys(all) && call.requestUri.None? ==> a.result == Failure(NullReference) && a.world.transcript == w.transcript)
            && (DistinctKeys(all) && call.requestUri.Some? ==>
                  var request := OutgoingRequest(call.httpMethod, call.requestUri.value, call.headers, all, call.content, env.platform);
                  var response := env.respond(|w.transcript|, request);
                  && a.world.transcript == w.transcript + [Exchange(ResourceLeg, request, response)]
                  && a.result == ResponseResult(response)))
  {
    var w := signed.world;
    var a := SendSigned(env, signed, call);
    if signed.outcome.Pass? {
      var all := signed.entries + AdditionalEntries(call, signed.entries);
      var copied := AddEach([], all);
      assert [] + all == all;
      AddEachDistinct([], all);
      if copied.clash.Some? {
        assert a == Attempted(Failure(DuplicateKey(copied.clash.value)), signed.entries, w);
      } else if call.requestUri.None? {
        assert a == Attempted(Failure(NullReference), signed.entries, w);
      } else {
        var request := OutgoingRequest(call.httpMethod, call.requestUri.value, call.headers, all, call.content, env.platform);
        var response := env.respond(|w.transcript|, request);
        var t := w.transcript + [Exchange(ResourceLeg, request, response)];
        assert a == Attempted(ResponseResult(response), signed.entries, w.(transcript := t));
        assert t[..|w.transcript|] == w.transcript;
      }
    }
  }

  /** After signing passed, an attempt fails with `DuplicateKey` exactly when
      copying the signed entries and the additional parameters repeats a key. */
  lemma SendSignedDuplicate(env: Environment, signed: Signed, call: ResourceCall)
    requires signed.outcome.Pass?
    ensures var a := SendSigned(env, signed, call);
      var all := signed.entries + AdditionalEntries(call, signed.entries);
      a.result.Failure? && a.result.error.DuplicateKey? <==> !DistinctKeys(all)
  {
    var all := signed.entries + AdditionalEntries(call, signed.entries);
    var copied := AddEach([], all);
    assert [] + all == all;
    AddEachDistinct([], all);
    assert copied.clash.None? <==> DistinctKeys(all);
    if copied.clash.None? {
      var sent := SendStep(env, signed.world, ResourceLeg, call.httpMethod, call.requestUri, call.headers, all, call.content);
      SendStepErrors(env, signed.world, ResourceLeg, call.httpMethod, call.requestUri, call.headers, all, call.content);
      assert SendSigned(env, signed, call).result == sent.result;
    }
  }

  /** Sending fails only for a null URI, an error status or no response. */
  lemma SendStepErrors(env: Environment, w: WorldState, leg: Leg, httpMethod: HttpMethod, requestUri: Option<string>,
                       headers: map<string, string>, entries: seq<Entry>, content: Option<string>)
    ensures var r := SendStep(env, w, leg, httpMethod, requestUri, headers, entries, content).result;
      r.Failure? ==> r.error == NullReference || r.error.HttpError? || r.error == TransportError
  {
  }

  /** One attempt signs the caller's entries, so it shows nothing, draws what
      signing draws, keeps the caller's other entries, and then sends as
      `SendSignedCases` says: exactly one resource request when signing passed, the
      copy repeats no key and the request URI is set, and none otherwise. */
  lemma AttemptCases(env: Environment, s: SessionState, w: WorldState, call: ResourceCall, entries: seq<Entry>)
    ensures var a := AttemptStep(env, s, w, call, entries);
      var signed := SignStep(env, s, w, call.httpMethod, call.signUri, entries);
      var all := signed.entries + AdditionalEntries(call, signed.entries);
      && a == SendSigned(env, signed, call)
      && signed.world.transcript == w.transcript && a.world.prompts == w.prompts
      && w.draws <= a.world.draws && w.clockReads <= a.world.clockReads
      && NonProtocolEntries(a.entries) == NonProtocolEntries(entries)
      && Extends(a.world.transcript, w.transcript) && |a.world.transcript| <= |w.transcript| + 1
      && (|a.world.transcript| > |w.transcript| ==>
            a.world.transcript[|w.transcript|].leg == ResourceLeg && a.result == ResponseResult(a.world.transcript[|w.transcript|].response))
      && (|a.world.transcript| > |w.transcript| <==> signed.outcome.Pass? && DistinctKeys(all) && call.requestUri.Some?)
      && (a.result.Success? || (a.result.Failure? && a.result.error.HttpError?) ==> |a.world.transcript| > |w.transcript|)
  {
    var signed := SignStep(env, s, w, call.httpMethod, call.signUri, entries);
    SignStepFacts(env, s, w, call.httpMethod, call.signUri, entries);
    SendSignedCases(env, signed, call);
    if signed.outcome.Pass? {
      SendSignedDuplicate(env, signed, call);
    }
  }

  /** What a pass of the loop may send: at most one resource request, after the
      token requests of its login; the loop retries exactly when that request was
      answered 401; a success is the body of its answer; the caller's entries
      other than the `oauth_` ones are kept; nonces and clock readings are only
      drawn, never given back. */
  ghost predicate PassSent(w: WorldState, entries: seq<Entry>, pass: (Reply, bool))
  {
    && Extends(pass.0.world.transcript, w.transcript)
    && var sent := ResourceExchanges(pass.0.world.transcript[|w.transcript|..]);
    && w.draws <= pass.0.world.draws && w.clockReads <= pass.0.world.clockReads
    && |sent| <= 1
    && (pass.1 <==> |sent| == 1 && sent[0].response == Status(UNAUTHORIZED))
    && (pass.1 ==> pass.0.result == Failure(HttpError(UNAUTHORIZED)))
    && (pass.0.result.Success? ==> |sent| == 1 && sent[0].response == Ok(pass.0.result.value))
    && NonProtocolEntries(pass.0.entries) == NonProtocolEntries(entries)
  }

  /** A pass of the loop sends at most one resource request, after the login's
      token requests, and the loop retries exactly when that request was answered
      401. A success is the body of its answer, and the caller's other entries are
      kept. */
  lemma RoundSends(env: Environment, s: SessionState, w: WorldState, call: ResourceCall, entries: seq<Entry>)
    ensures PassSent(w, entries, RoundStep(env, s, w, call, entries))
  {
    LogInSendsTokenRequestsOnly(env, s, w);
    PassSends(env, w, LogInStep(env, s, w), call, entries);
  }

  /** The login of a pass sends token requests only and draws no fewer nonces and
      clock readings. */
  lemma LogInSendsTokenRequestsOnly(env: Environment, s: SessionState, w: WorldState)
    ensures var r := LogInStep(env, s, w);
      NoResourceRequests(w.transcript, r.world.transcript) && w.draws <= r.world.draws && w.clockReads <= r.world.clockReads
  {
    LogInFacts(env, s, w);
  }

  /** `RoundSends` for any login that sent token requests only. */
  lemma PassSends(env: Environment, w: WorldState, login: Step<Result<(), Error>>, call: ResourceCall, entries: seq<Entry>)
    requires NoResourceRequests(w.transcript, login.world.transcript)
    requires w.draws <= login.world.draws && w.clockReads <= login.world.clockReads
    ensures PassSent(w, entries, PassAfterLogin(env, login, call, entries))
  {
    NoResourceRequestsNone(w.transcript, login.world.transcript);
    if login.result.Success? {
      var a := AttemptStep(env, login.session, login.world, call, entries);
      AttemptCases(env, login.session, login.world, call, entries);
      AttemptSent(w, login, a, entries);
    }
  }

  /** `PassSent` for an attempt that sends at most one resource request, after a
      login that sent token requests only. */
  lemma AttemptSent(w: WorldState, login: Step<Result<(), Error>>, a: Attempted, entries: seq<Entry>)
    requires Extends(login.world.transcript, w.transcript) && ResourceExchanges(login.world.transcript[|w.transcript|..]) == []
    requires w.draws <= login.world.draws && w.clockReads <= login.world.clockReads
    requires login.world.draws <= a.world.draws && login.world.clockReads <= a.world.clockReads
    requires NonProtocolEntries(a.entries) == NonProtocolEntries(entries)
    requires Extends(a.world.transcript, login.world.transcript) && |a.world.transcript| <= |login.world.transcript| + 1
    requires |a.world.transcript| > |login.world.transcript| ==>
               a.world.transcript[|login.world.transcript|].leg == ResourceLeg
               && a.result == ResponseResult(a.world.transcript[|login.world.transcript|].response)
    requires a.result.Success? || (a.result.Failure? && a.result.error.HttpError?) ==> |a.world.transcript| > |login.world.transcript|
    ensures PassSent(w, entries, (Reply(a.result, login.session, a.entries, a.world), a.result == Failure(HttpError(UNAUTHORIZED))))
  {
    var before := login.world.transcript;
    ResourceExchangesSince(w.transcript, before, a.world.transcript);
    if |a.world.transcript| > |before| {
      SentOne(before, a.world.transcript);
    } else {
      assert a.world.transcript[|before|..] == [];
      assert ResourceExchanges([]) == [];
    }
  }


  /** The loop of `MakeOAuthRequest` runs a second pass only after a 401 answer
      to the first pass's resource request; otherwise the first pass's outcome is
      the result. The second pass starts from the session with the token and its
      secret cleared, the entries without their `oauth_` parameters, and the world
      as the first pass left it. After a second 401 the loop ends with that error,
      the token and its secret cleared again and the `oauth_` parameters removed
      again. */
  lemma OAuthRequestPasses(env: Environment, s: SessionState, w: WorldState, call: ResourceCall, entries: seq<Entry>)
    ensures var first := RoundStep(env, s, w, call, entries);
      var r := OAuthRequestStep(env, s, w, call, entries);
      && (!first.1 ==> r == first.0)
      && (first.1 ==>
            var second := RoundStep(env, Forget(first.0.session), first.0.world, call, NonProtocolEntries(first.0.entries));
            && (!second.1 ==> r == second.0)
            && (second.1 ==>
                  r == Reply(Failure(HttpError(UNAUTHORIZED)), Forget(second.0.session), NonProtocolEntries(second.0.entries), second.0.world)))
  {
    var first := RoundStep(env, s, w, call, entries);
    RoundSends(env, s, w, call, entries);
    if first.1 {
      var second := RoundStep(env, Forget(first.0.session), first.0.world, call, NonProtocolEntries(first.0.entries));
      RoundSends(env, Forget(first.0.session), first.0.world, call, NonProtocolEntries(first.0.entries));
      if second.1 {
        assert RetryStep(env, Forget(second.0.session), second.0.world, call, NonProtocolEntries(second.0.entries), 0, Some(second.0.result.error))
            == Reply(Failure(HttpError(UNAUTHORIZED)), Forget(second.0.session), NonProtocolEntries(second.0.entries), second.0.world);
      }
    }
  }

  /** Without a token and with automatic login off, `MakeOAuthRequest` fails
      with "Not authorized" and changes nothing. */
  lemma OAuthRequestWithoutLogin(env: Environment, s: SessionState, w: WorldState, call: ResourceCall, entries: seq<Entry>)
    requires IsNullOrEmpty(s.token) && !env.settings.autoLogin
    ensures OAuthRequestStep(env, s, w, call, entries) == Reply(Failure(NotAuthorized), s, entries, w)
  {
    OAuthRequestPasses(env, s, w, call, entries);
  }

  /** A login that fails on the first pass ends `MakeOAuthRequest` with its error,
      even a 401 answer to one of its token requests: it is not retried. */
  lemma OAuthRequestLoginFails(env: Environment, s: SessionState, w: WorldState, call: ResourceCall, entries: seq<Entry>)
    ensures var login := LogInStep(env, s, w);
      login.result.Failure? ==>
        OAuthRequestStep(env, s, w, call, entries) == Reply(Failure(login.result.error), login.session, entries, login.world)
  {
    OAuthRequestPasses(env, s, w, call, entries);
  }

  /** With a token, the first pass signs with it and sends at once; only a 401
      answer leads to a second pass, which has no token and so logs in again (or
      fails with "Not authorized" when automatic login is off), and signs with a
      nonce drawn after the first request's. */
  lemma OAuthRequestRetriesAfterUnauthorized(env: Environment, s: SessionState, w: WorldState, call: ResourceCall, entries: seq<Entry>)
    ensures var first := RoundStep(env, s, w, call, entries);
      var attempt := AttemptStep(env, s, w, call, entries);
      && (!IsNullOrEmpty(s.token) ==>
            first.0 == Reply(attempt.result, s, attempt.entries, attempt.world)
            && (first.1 <==> attempt.result == Failure(HttpError(UNAUTHORIZED))))
      && (first.1 ==>
            && IsNullOrEmpty(Forget(first.0.session).token) && Forget(first.0.session).tokenSecret.None?
            && w.draws < first.0.world.draws
            && (!env.settings.autoLogin ==>
                  OAuthRequestStep(env, s, w, call, entries)
                  == Reply(Failure(NotAuthorized), Forget(first.0.session), NonProtocolEntries(first.0.entries), first.0.world)))
  {
    var first := RoundStep(env, s, w, call, entries);
    var login := LogInStep(env, s, w);
    LogInFacts(env, s, w);
    if first.1 {
      AttemptCases(env, login.session, login.world, call, entries);
      var signed := SignStep(env, login.session, login.world, call.httpMethod, call.signUri, entries);
      SignStepFacts(env, login.session, login.world, call.httpMethod, call.signUri, entries);
      OAuthRequestPasses(env, s, w, call, entries);
    }
  }

  /** `MakeOAuthRequest` sends at most two resource requests, and a second only
      after a 401 answer to the first. A success is the body of the last answer.
      Two 401 answers end it with that error, no token, no token secret and no
      `oauth_` parameter left; whatever happens, the caller's other parameters
      are kept. */
  lemma OAuthRequestSendsAtMostTwo(env: Environment, s: SessionState, w: WorldState, call: ResourceCall, entries: seq<Entry>)
    ensures Extends(OAuthRequestStep(env, s, w, call, entries).world.transcript, w.transcript)
    ensures var r := OAuthRequestStep(env, s, w, call, entries);
      var sent := ResourceExchanges(r.world.transcript[|w.transcript|..]);
      && |sent| <= 2
      && (|sent| == 2 ==> sent[0].response == Status(UNAUTHORIZED))
      && (r.result.Success? ==> |sent| > 0 && sent[|sent| - 1].response == Ok(r.result.value))
      && (|sent| == 2 && sent[1].response == Status(UNAUTHORIZED) ==>
            && r.result == Failure(HttpError(UNAUTHORIZED))
            && r.session.token.None? && r.session.tokenSecret.None?
            && r.entries == NonProtocolEntries(entries))
      && NonProtocolEntries(r.entries) == NonProtocolEntries(entries)
  {
    var first := RoundStep(env, s, w, call, entries);
    RoundSends(env, s, w, call, entries);
    OAuthRequestPasses(env, s, w, call, entries);
    var rest := NonProtocolEntries(first.0.entries);
    var second := RoundStep(env, Forget(first.0.session), first.0.world, call, rest);
    RoundSends(env, Forget(first.0.session), first.0.world, call, rest);
    TwoPassesSend(w, entries, first, second, OAuthRequestStep(env, s, w, call, entries));
  }

  /** The resource requests of at most two passes, each sending at most one. */
  lemma TwoPassesSend(w: WorldState, entries: seq<Entry>, first: (Reply, bool), second: (Reply, bool), r: Reply)
    requires PassSent(w, entries, first)
    requires PassSent(first.0.world, NonProtocolEntries(first.0.entries), second)
    requires !first.1 ==> r == first.0
    requires first.1 && !second.1 ==> r == second.0
    requires first.1 && second.1 ==>
               r == Reply(Failure(HttpError(UNAUTHORIZED)), Forget(second.0.session), NonProtocolEntries(second.0.entries), second.0.world)
    ensures Extends(r.world.transcript, w.transcript)
    ensures var sent := ResourceExchanges(r.world.transcript[|w.transcript|..]);
      && |sent| <= 2
      && (|sent| == 2 ==> sent[0].response == Status(UNAUTHORIZED))
      && (r.result.Success? ==> |sent| > 0 && sent[|sent| - 1].response == Ok(r.result.value))
      && (|sent| == 2 && sent[1].response == Status(UNAUTHORIZED) ==>
            && r.result == Failure(HttpError(UNAUTHORIZED))
            && r.session.token.None? && r.session.tokenSecret.None?
            && r.entries == NonProtocolEntries(entries))
      && NonProtocolEntries(r.entries) == NonProtocolEntries(entries)
  {
    if first.1 {
      ResourceExchangesSince(w.transcript, first.0.world.transcript, second.0.world.transcript);
      NonProtocolEntriesIdempotent(first.0.entries);
      if second.1 {
        NonProtocolEntriesIdempotent(second.0.entries);
      }
    }
  }


}
