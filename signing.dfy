/** `OAuthSession.Sign`: the protocol parameters it injects (section 3.1 of
    RFC 5849), the signature base string (section 3.4.1), the signing key and the
    signature (sections 3.4.2 to 3.4.4), all as the session writes them. */
module Signing {
  import opened Wrappers
  import opened Strings
  import opened PercentEncoding
  import opened Parameters
  import opened Errors
  import opened Foreign

  const OAUTH_VERSION := "1.0"
  const OAUTH_PARAMETER_PREFIX := "oauth_"
  const OAUTH_CONSUMER_KEY_KEY := "oauth_consumer_key"
  const OAUTH_CALLBACK_KEY := "oauth_callback"
  const OAUTH_VERSION_KEY := "oauth_version"
  const OAUTH_SIGNATURE_METHOD_KEY := "oauth_signature_method"
  const OAUTH_TIMESTAMP_KEY := "oauth_timestamp"
  const OAUTH_NONCE_KEY := "oauth_nonce"
  const OAUTH_TOKEN_KEY := "oauth_token"
  const OAUTH_VERIFIER_KEY := "oauth_verifier"
  const OAUTH_TOKEN_SECRET_KEY := "oauth_token_secret"
  const OAUTH_SIGNATURE_KEY := "oauth_signature"

  datatype SignatureType = HMACSHA1 | PLAINTEXT | RSASHA1

  /** The `oauth_signature_method` value of each signature type. */
  function SignatureMethodName(t: SignatureType): string
  {
    match t
    case RSASHA1 => "RSA-SHA1"
    case PLAINTEXT => "PLAINTEXT"
    case HMACSHA1 => "HMAC-SHA1"
  }

  /** An `HttpMethod`; `ToString()` gives its name exactly as constructed. */
  datatype HttpMethod = HttpMethod(name: string)

  const GET := HttpMethod("GET")
  const POST := HttpMethod("POST")
  const PUT := HttpMethod("PUT")

  /** `HttpMethod` equality: the names compared ignoring case. */
  predicate SameMethod(a: HttpMethod, b: HttpMethod)
  {
    UpperAscii(a.name) == UpperAscii(b.name)
  }

  /** `string.IsNullOrEmpty`. */
  predicate IsNullOrEmpty(s: Option<string>)
  {
    s.None? || s.value == ""
  }

  /** Keys that go into the Authorization header (`StartsWith("oauth_")`). */
  predicate IsProtocolKey(k: string)
  {
    StartsWith(k, OAUTH_PARAMETER_PREFIX)
  }

  /** A decimal numeral, as `long.ToString()` writes a non-negative number. */
  function Decimal(n: nat): (s: string)
    ensures |s| >= 1
    ensures forall i :: 0 <= i < |s| ==> '0' <= s[i] <= '9'
  {
    if n < 10 then [('0' as int + n) as char] else Decimal(n / 10) + [('0' as int + n % 10) as char]
  }

  /** `GenerateNonce`: `random.Next(123400, 9999999)` written in decimal, for the
      random draw `r`. */
  function Nonce(r: nat): (s: string)
    ensures AllUnreserved(s)
  {
    Decimal(123400 + r % (9999999 - 123400))
  }

  /** `GenerateTimeStamp`: whole seconds since 1970-01-01 UTC, in decimal. */
  function Timestamp(seconds: nat): (s: string)
    ensures AllUnreserved(s)
  {
    Decimal(seconds)
  }

  /** The session properties that `Sign` reads. */
  datatype SigningContext = SigningContext(
    signatureType: SignatureType,
    consumerKey: string,
    consumerSecret: string,
    callbackUrl: Option<string>,
    requestTokenUrl: Option<string>,
    token: Option<string>,
    tokenSecret: Option<string>,
    verifier: Option<string>)

  /** Whether `oauth_callback` is injected: only when signing for the request-token URL. */
  predicate SendsCallback(ctx: SigningContext, requestUri: string)
  {
    ctx.callbackUrl.Some? && ctx.requestTokenUrl.Some? && requestUri == ctx.requestTokenUrl.value
  }

  /** The protocol parameters `Sign` adds, in the order it adds them. */
  function ProtocolParameters(ctx: SigningContext, requestUri: string, nonce: string, timestamp: string): seq<Entry>
  {
    FixedParameters(ctx, nonce, timestamp)
    + OptionalParameter(OAUTH_CALLBACK_KEY, if SendsCallback(ctx, requestUri) then ctx.callbackUrl else None)
    + OptionalParameter(OAUTH_VERIFIER_KEY, if IsNullOrEmpty(ctx.verifier) then None else ctx.verifier)
    + OptionalParameter(OAUTH_TOKEN_KEY, if IsNullOrEmpty(ctx.token) then None else ctx.token)
  }

  /** The parameters `Sign` always adds. */
  function FixedParameters(ctx: SigningContext, nonce: string, timestamp: string): seq<Entry>
  {
    [ (OAUTH_VERSION_KEY, Text(OAUTH_VERSION)),
      (OAUTH_NONCE_KEY, Text(nonce)),
      (OAUTH_TIMESTAMP_KEY, Text(timestamp)),
      (OAUTH_SIGNATURE_METHOD_KEY, Text(SignatureMethodName(ctx.signatureType))),
      (OAUTH_CONSUMER_KEY_KEY, Text(ctx.consumerKey)) ]
  }

  /** A parameter added only when it has a value. */
  function OptionalParameter(key: string, value: Option<string>): seq<Entry>
  {
    if value.Some? then [(key, Text(value.value))] else []
  }

  /** The value stored under `k`, if any. */
  function Lookup(entries: seq<Entry>, k: string): Option<Value>
  {
    if entries == [] then None
    else if entries[0].0 == k then Some(entries[0].1)
    else Lookup(entries[1..], k)
  }

  /** The signature base string: method name, escaped normalised URI and escaped
      normalised parameters, separated by '&'. */
  function SignatureBase(methodName: string, normalizedUri: string, entries: seq<Entry>, less: (string, string) -> bool): string
  {
    methodName + "&" + Escape(normalizedUri) + "&" + Escape(Normalize(entries, less))
  }

  /** The signing key: escaped consumer secret, '&', escaped token secret (empty when
      the token secret is null or empty). */
  function SigningKey(consumerSecret: string, tokenSecret: Option<string>): string
  {
    Escape(consumerSecret) + "&" + (if IsNullOrEmpty(tokenSecret) then "" else Escape(tokenSecret.value))
  }

  /** The value `Sign` stores under `oauth_signature`. */
  function ComputeSignature(ctx: SigningContext, key: string, base: string, platform: Platform): Result<string, Error>
  {
    match ctx.signatureType
    case RSASHA1 =>
      (match platform.rsaSha1(ctx.consumerKey, ctx.consumerSecret, base)
       case None => Failure(CertificateUnavailable)
       case Some(b64) => Success(Escape(b64)))
    case PLAINTEXT => Success(key)
    case HMACSHA1 => Success(platform.hmacSha1(key, base))
  }

  /** The signature `Sign` computes over `entries` for a request to `requestUri`. */
  function SignatureOf(ctx: SigningContext, methodName: string, requestUri: string, entries: seq<Entry>, platform: Platform): Result<string, Error>
  {
    var base := SignatureBase(methodName, platform.normalizeUri(requestUri), entries, platform.less);
    ComputeSignature(ctx, SigningKey(ctx.consumerSecret, ctx.tokenSecret), base, platform)
  }

  /** A run of `Dictionary.Add` calls: the entries afterwards and the first key refused. */
  datatype Added = Added(entries: seq<Entry>, clash: Option<string>)

  function AddEach(entries: seq<Entry>, items: seq<Entry>): Added
    decreases |items|
  {
    if items == [] then Added(entries, None)
    else if items[0].0 in KeysOf(entries) then Added(entries, Some(items[0].0))
    else AddEach(entries + [items[0]], items[1..])
  }

  /** What `Sign` leaves in the dictionary, and whether it returns or throws. */
  function SignEffect(ctx: SigningContext, methodName: string, requestUri: Option<string>, entries: seq<Entry>,
                      nonce: string, timestamp: string, platform: Platform): (seq<Entry>, Outcome<Error>)
  {
    if requestUri.None? then (entries, Fail(NullReference))
    else
      var added := AddEach(entries, ProtocolParameters(ctx, requestUri.value, nonce, timestamp));
      if added.clash.Some? then (added.entries, Fail(DuplicateKey(added.clash.value)))
      else
        match SignatureOf(ctx, methodName, requestUri.value, added.entries, platform)
        case Failure(e) => (added.entries, Fail(e))
        case Success(sig) =>
          if OAUTH_SIGNATURE_KEY in KeysOf(added.entries) then (added.entries, Fail(DuplicateKey(OAUTH_SIGNATURE_KEY)))
          else (added.entries + [(OAUTH_SIGNATURE_KEY, Text(sig))], Pass)
  }

  // ---------------------------------------------------------------------------
  // Properties

  lemma {:induction false} LookupAppend(a: seq<Entry>, b: seq<Entry>, k: string)
    ensures Lookup(a + b, k) == if k in KeysOf(a) then Lookup(a, k) else Lookup(b, k)
  {
    if a != [] {
      LookupAppend(a[1..], b, k);
      assert (a + b)[1..] == a[1..] + b;
      assert KeysOf(a) == [a[0].0] + KeysOf(a[1..]);
    } else {
      assert a + b == b;
    }
  }

  lemma {:induction false} LookupAbsent(a: seq<Entry>, k: string)
    requires k !in KeysOf(a)
    ensures Lookup(a, k) == None
  {
    if a != [] {
      assert KeysOf(a) == [a[0].0] + KeysOf(a[1..]);
      LookupAbsent(a[1..], k);
    }
  }

  /** `Sign` always injects `oauth_version` "1.0", the nonce, the timestamp, the
      signature method matching the signature type and the consumer key, then
      `oauth_callback`, `oauth_verifier` and `oauth_token` where they apply. All
      injected parameters are distinct protocol keys with string values, and none is
      `oauth_signature`. */
  lemma ProtocolParametersContents(ctx: SigningContext, requestUri: string, nonce: string, timestamp: string)
    ensures var p := ProtocolParameters(ctx, requestUri, nonce, timestamp);
      && DistinctKeys(p)
      && (forall i :: 0 <= i < |p| ==> IsProtocolKey(p[i].0) && p[i].0 != OAUTH_SIGNATURE_KEY && p[i].1.Text?)
      && p[..5] == [(OAUTH_VERSION_KEY, Text("1.0")), (OAUTH_NONCE_KEY, Text(nonce)), (OAUTH_TIMESTAMP_KEY, Text(timestamp)),
                    (OAUTH_SIGNATURE_METHOD_KEY, Text(SignatureMethodName(ctx.signatureType))),
                    (OAUTH_CONSUMER_KEY_KEY, Text(ctx.consumerKey))]
  {
    var fixed := FixedParameters(ctx, nonce, timestamp);
    var cb := OptionalParameter(OAUTH_CALLBACK_KEY, if SendsCallback(ctx, requestUri) then ctx.callbackUrl else None);
    var vf := OptionalParameter(OAUTH_VERIFIER_KEY, if IsNullOrEmpty(ctx.verifier) then None else ctx.verifier);
    var tk := OptionalParameter(OAUTH_TOKEN_KEY, if IsNullOrEmpty(ctx.token) then None else ctx.token);
    FixedParametersFacts(ctx, nonce, timestamp);
    OptionalParameterFacts(OAUTH_CALLBACK_KEY, if SendsCallback(ctx, requestUri) then ctx.callbackUrl else None);
    OptionalParameterFacts(OAUTH_VERIFIER_KEY, if IsNullOrEmpty(ctx.verifier) then None else ctx.verifier);
    OptionalParameterFacts(OAUTH_TOKEN_KEY, if IsNullOrEmpty(ctx.token) then None else ctx.token);
    assert (fixed + cb + vf + tk)[..5] == fixed;
    PartsDistinct(fixed, cb, vf, tk);
    ProtocolKeysOnly(fixed, cb, vf, tk);
  }

  lemma PartsDistinct(fixed: seq<Entry>, cb: seq<Entry>, vf: seq<Entry>, tk: seq<Entry>)
    requires DistinctKeys(fixed) && DistinctKeys(cb) && DistinctKeys(vf) && DistinctKeys(tk)
    requires forall e :: e in fixed ==> e.0 in {OAUTH_VERSION_KEY, OAUTH_NONCE_KEY, OAUTH_TIMESTAMP_KEY, OAUTH_SIGNATURE_METHOD_KEY, OAUTH_CONSUMER_KEY_KEY}
    requires forall e :: e in cb ==> e.0 == OAUTH_CALLBACK_KEY
    requires forall e :: e in vf ==> e.0 == OAUTH_VERIFIER_KEY
    requires forall e :: e in tk ==> e.0 == OAUTH_TOKEN_KEY
    ensures DistinctKeys(fixed + cb + vf + tk)
  {
    DistinctKeysAppend(fixed, cb);
    DistinctKeysAppend(fixed + cb, vf);
    DistinctKeysAppend(fixed + cb + vf, tk);
  }

  /** The keys `Sign` injects, in order: the five fixed ones, then `oauth_callback`
      exactly when signing for the request-token URL with a callback set, then
      `oauth_verifier` and `oauth_token` exactly when they are not empty. */
  lemma ProtocolParameterKeys(ctx: SigningContext, requestUri: string, nonce: string, timestamp: string)
    ensures KeysOf(ProtocolParameters(ctx, requestUri, nonce, timestamp))
         == [OAUTH_VERSION_KEY, OAUTH_NONCE_KEY, OAUTH_TIMESTAMP_KEY, OAUTH_SIGNATURE_METHOD_KEY, OAUTH_CONSUMER_KEY_KEY]
            + (if SendsCallback(ctx, requestUri) then [OAUTH_CALLBACK_KEY] else [])
            + (if IsNullOrEmpty(ctx.verifier) then [] else [OAUTH_VERIFIER_KEY])
            + (if IsNullOrEmpty(ctx.token) then [] else [OAUTH_TOKEN_KEY])
  {
    var fixed := FixedParameters(ctx, nonce, timestamp);
    var cb := OptionalParameter(OAUTH_CALLBACK_KEY, if SendsCallback(ctx, requestUri) then ctx.callbackUrl else None);
    var vf := OptionalParameter(OAUTH_VERIFIER_KEY, if IsNullOrEmpty(ctx.verifier) then None else ctx.verifier);
    var tk := OptionalParameter(OAUTH_TOKEN_KEY, if IsNullOrEmpty(ctx.token) then None else ctx.token);
    FixedParametersFacts(ctx, nonce, timestamp);
    KeysOfAppend(fixed + cb + vf, tk);
    KeysOfAppend(fixed + cb, vf);
    KeysOfAppend(fixed, cb);
    OptionalParameterKeys(OAUTH_CALLBACK_KEY, if SendsCallback(ctx, requestUri) then ctx.callbackUrl else None);
    OptionalParameterKeys(OAUTH_VERIFIER_KEY, if IsNullOrEmpty(ctx.verifier) then None else ctx.verifier);
    OptionalParameterKeys(OAUTH_TOKEN_KEY, if IsNullOrEmpty(ctx.token) then None else ctx.token);
  }

  lemma OptionalParameterFacts(key: string, value: Option<string>)
    ensures DistinctKeys(OptionalParameter(key, value))
    ensures forall e :: e in OptionalParameter(key, value) ==> e.0 == key && e.1.Text?
  {
  }

  lemma OptionalParameterKeys(key: string, value: Option<string>)
    ensures KeysOf(OptionalParameter(key, value)) == if value.Some? then [key] else []
  {
  }

  /** The optional parameters carry the session's values. */
  lemma ProtocolParameterValues(ctx: SigningContext, requestUri: string, nonce: string, timestamp: string)
    ensures var p := ProtocolParameters(ctx, requestUri, nonce, timestamp);
      && (SendsCallback(ctx, requestUri) ==> (OAUTH_CALLBACK_KEY, Text(ctx.callbackUrl.value)) in p)
      && (!IsNullOrEmpty(ctx.verifier) ==> (OAUTH_VERIFIER_KEY, Text(ctx.verifier.value)) in p)
      && (!IsNullOrEmpty(ctx.token) ==> (OAUTH_TOKEN_KEY, Text(ctx.token.value)) in p)
  {
    var p := ProtocolParameters(ctx, requestUri, nonce, timestamp);
    var fixed := FixedParameters(ctx, nonce, timestamp);
    var cb := OptionalParameter(OAUTH_CALLBACK_KEY, if SendsCallback(ctx, requestUri) then ctx.callbackUrl else None);
    var vf := OptionalParameter(OAUTH_VERIFIER_KEY, if IsNullOrEmpty(ctx.verifier) then None else ctx.verifier);
    var tk := OptionalParameter(OAUTH_TOKEN_KEY, if IsNullOrEmpty(ctx.token) then None else ctx.token);
    assert p == fixed + cb + vf + tk;
    assert forall e :: e in cb || e in vf || e in tk ==> e in p;
  }

  lemma {:induction false} KeysOfAppend(a: seq<Entry>, b: seq<Entry>)
    ensures KeysOf(a + b) == KeysOf(a) + KeysOf(b)
  {
  }

  lemma FixedParametersFacts(ctx: SigningContext, nonce: string, timestamp: string)
    ensures var fixed := FixedParameters(ctx, nonce, timestamp);
      && DistinctKeys(fixed)
      && KeysOf(fixed) == [OAUTH_VERSION_KEY, OAUTH_NONCE_KEY, OAUTH_TIMESTAMP_KEY, OAUTH_SIGNATURE_METHOD_KEY, OAUTH_CONSUMER_KEY_KEY]
      && (forall e :: e in fixed ==> e.0 in {OAUTH_VERSION_KEY, OAUTH_NONCE_KEY, OAUTH_TIMESTAMP_KEY, OAUTH_SIGNATURE_METHOD_KEY, OAUTH_CONSUMER_KEY_KEY} && e.1.Text?)
  {
  }

  lemma ProtocolKeysOnly(fixed: seq<Entry>, cb: seq<Entry>, vf: seq<Entry>, tk: seq<Entry>)
    requires forall e :: e in fixed ==> e.0 in {OAUTH_VERSION_KEY, OAUTH_NONCE_KEY, OAUTH_TIMESTAMP_KEY, OAUTH_SIGNATURE_METHOD_KEY, OAUTH_CONSUMER_KEY_KEY}
    requires forall e :: e in fixed + cb + vf + tk ==> e.1.Text?
    requires forall e :: e in cb ==> e.0 == OAUTH_CALLBACK_KEY
    requires forall e :: e in vf ==> e.0 == OAUTH_VERIFIER_KEY
    requires forall e :: e in tk ==> e.0 == OAUTH_TOKEN_KEY
    ensures var p := fixed + cb + vf + tk;
      forall i :: 0 <= i < |p| ==> IsProtocolKey(p[i].0) && p[i].0 != OAUTH_SIGNATURE_KEY && p[i].1.Text?
  {
    var p := fixed + cb + vf + tk;
    forall i | 0 <= i < |p| ensures IsProtocolKey(p[i].0) && p[i].0 != OAUTH_SIGNATURE_KEY {
      assert p[i] in p;
    }
  }

  lemma DistinctKeysAppend(a: seq<Entry>, b: seq<Entry>)
    requires DistinctKeys(a) && DistinctKeys(b)
    requires forall e, f :: e in a && f in b ==> e.0 != f.0
    ensures DistinctKeys(a + b)
  {
    forall i, j | 0 <= i < j < |a + b| ensures (a + b)[i].0 != (a + b)[j].0 {
      if j >= |a| && i < |a| {
        assert a[i] in a && b[j - |a|] in b;
      }
    }
  }

  /** A run of Adds that no key refuses appends all the items. */
  lemma {:induction false} AddEachAll(entries: seq<Entry>, items: seq<Entry>)
    ensures AddEach(entries, items).clash.None? ==> AddEach(entries, items).entries == entries + items
    decreases |items|
  {
    if items != [] && items[0].0 !in KeysOf(entries) {
      AddEachAll(entries + [items[0]], items[1..]);
      assert entries + [items[0]] + items[1..] == entries + items;
    } else if items == [] {
      assert entries + items == entries;
    }
  }

  /** A run of Adds over `a + b` is the run over `a` followed, unless it was
      refused, by the run over `b`. */
  lemma {:induction false} AddEachConcat(entries: seq<Entry>, a: seq<Entry>, b: seq<Entry>)
    ensures AddEach(entries, a + b)
         == (var r := AddEach(entries, a); if r.clash.Some? then r else AddEach(r.entries, b))
    decreases |a|
  {
    if a == [] {
      assert a + b == b;
    } else {
      assert (a + b)[0] == a[0] && (a + b)[1..] == a[1..] + b;
      if a[0].0 !in KeysOf(entries) {
        AddEachConcat(entries + [a[0]], a[1..], b);
      }
    }
  }

  /** Once the protocol parameters are in, the dictionary holds a string value. */
  lemma AddedProtocolHasText(ctx: SigningContext, requestUri: string, entries: seq<Entry>, nonce: string, timestamp: string)
    requires AddEach(entries, ProtocolParameters(ctx, requestUri, nonce, timestamp)).clash.None?
    ensures HasText(AddEach(entries, ProtocolParameters(ctx, requestUri, nonce, timestamp)).entries)
  {
    var p := ProtocolParameters(ctx, requestUri, nonce, timestamp);
    AddEachAll(entries, p);
    ProtocolParametersContents(ctx, requestUri, nonce, timestamp);
    var r := AddEach(entries, p).entries;
    assert p[0] == p[..5][0];
    assert r[|entries|] == p[0];
  }

  /** Dictionary keys stay distinct through a run of Adds. */
  lemma {:induction false} AddEachKeepsDistinct(entries: seq<Entry>, items: seq<Entry>)
    requires DistinctKeys(entries)
    ensures DistinctKeys(AddEach(entries, items).entries)
    decreases |items|
  {
    if items != [] && items[0].0 !in KeysOf(entries) {
      var grown := entries + [items[0]];
      assert DistinctKeys(grown) by {
        forall i | 0 <= i < |entries| ensures entries[i].0 != items[0].0 {
          assert KeysOf(entries)[i] == entries[i].0;
        }
      }
      AddEachKeepsDistinct(grown, items[1..]);
    }
  }

  /** With distinct items, the run is refused exactly when some item's key is
      already present. */
  lemma {:induction false} AddEachClash(entries: seq<Entry>, items: seq<Entry>)
    requires DistinctKeys(items)
    ensures AddEach(entries, items).clash.None? <==> forall i :: 0 <= i < |items| ==> items[i].0 !in KeysOf(entries)
    decreases |items|
  {
    if items != [] && items[0].0 !in KeysOf(entries) {
      var grown := entries + [items[0]];
      var rest := items[1..];
      assert DistinctKeys(rest) by {
        forall i, j | 0 <= i < j < |rest| ensures rest[i].0 != rest[j].0 {
          assert rest[i] == items[i + 1] && rest[j] == items[j + 1];
        }
      }
      AddEachClash(grown, rest);
      KeysOfAppend(entries, [items[0]]);
      forall i | 0 <= i < |rest| ensures rest[i].0 in KeysOf(grown) <==> rest[i].0 in KeysOf(entries) {
        assert rest[i] == items[i + 1];
      }
      assert (forall i :: 0 <= i < |items| ==> items[i].0 !in KeysOf(entries))
         <==> (forall i :: 0 <= i < |rest| ==> rest[i].0 !in KeysOf(entries)) by {
        if forall i :: 0 <= i < |rest| ==> rest[i].0 !in KeysOf(entries) {
          forall i | 0 <= i < |items| ensures items[i].0 !in KeysOf(entries) {
            if i > 0 {
              assert items[i] == rest[i - 1];
            }
          }
        }
      }
    }
  }

  /** A run of Adds appends some first items and nothing else. */
  lemma {:induction false} AddEachAppends(entries: seq<Entry>, items: seq<Entry>)
    ensures var r := AddEach(entries, items).entries;
      |entries| <= |r| <= |entries| + |items| && r == entries + items[..|r| - |entries|]
    decreases |items|
  {
    if items != [] && items[0].0 !in KeysOf(entries) {
      AddEachAppends(entries + [items[0]], items[1..]);
      var r := AddEach(entries, items).entries;
      var n := |r| - |entries|;
      assert entries + [items[0]] + items[1..][..n - 1] == entries + items[..n];
    } else {
      assert items[..0] == [];
    }
  }

  /** `Sign` throws only for a missing URI, a key already present, or an RSA
      certificate that cannot be used; it never sends anything. */
  lemma SignEffectErrors(ctx: SigningContext, methodName: string, requestUri: Option<string>, entries: seq<Entry>,
                         nonce: string, timestamp: string, platform: Platform)
    ensures var outcome := SignEffect(ctx, methodName, requestUri, entries, nonce, timestamp, platform).1;
      && (outcome == Fail(NullReference) <==> requestUri.None?)
      && (outcome == Fail(CertificateUnavailable) ==> ctx.signatureType == RSASHA1)
      && (outcome.Fail? ==> outcome.error == NullReference || outcome.error == CertificateUnavailable || outcome.error.DuplicateKey?)
  {
  }

  /** What `Sign` leaves in the dictionary: the entries after the run of Adds,
      followed by the signature when it gets that far. */
  lemma SignEffectShape(ctx: SigningContext, methodName: string, requestUri: string, entries: seq<Entry>,
                        nonce: string, timestamp: string, platform: Platform)
    ensures var added := AddEach(entries, ProtocolParameters(ctx, requestUri, nonce, timestamp)).entries;
      var after := SignEffect(ctx, methodName, Some(requestUri), entries, nonce, timestamp, platform).0;
      after == added || (|after| == |added| + 1 && after[..|added|] == added && after[|added|].0 == OAUTH_SIGNATURE_KEY)
  {
  }

  /** `Sign` keeps the caller's entries first and the keys distinct, whether it
      returns or throws. */
  lemma SignEffectKeepsEntries(ctx: SigningContext, methodName: string, requestUri: string, entries: seq<Entry>,
                               nonce: string, timestamp: string, platform: Platform)
    requires DistinctKeys(entries)
    ensures var after := SignEffect(ctx, methodName, Some(requestUri), entries, nonce, timestamp, platform).0;
      DistinctKeys(after) && |entries| <= |after| && after[..|entries|] == entries
  {
    var p := ProtocolParameters(ctx, requestUri, nonce, timestamp);
    AddEachAppends(entries, p);
    AddEachKeepsDistinct(entries, p);
    var added := AddEach(entries, p);
    assert added.entries[..|entries|] == entries;
    var after := SignEffect(ctx, methodName, Some(requestUri), entries, nonce, timestamp, platform).0;
    if after != added.entries {
      assert OAUTH_SIGNATURE_KEY !in KeysOf(added.entries);
      assert after[..|entries|] == entries;
    }
  }

  /** `Sign` returns normally exactly when none of the keys it adds (the protocol
      parameters and `oauth_signature`) is present yet and the signature can be
      computed. */
  lemma SignSucceedsIff(ctx: SigningContext, methodName: string, requestUri: string, entries: seq<Entry>,
                        nonce: string, timestamp: string, platform: Platform)
    ensures var p := ProtocolParameters(ctx, requestUri, nonce, timestamp);
      SignEffect(ctx, methodName, Some(requestUri), entries, nonce, timestamp, platform).1.Pass?
      <==> (forall i :: 0 <= i < |p| ==> p[i].0 !in KeysOf(entries))
           && OAUTH_SIGNATURE_KEY !in KeysOf(entries)
           && SignatureOf(ctx, methodName, requestUri, entries + p, platform).Success?
  {
    var p := ProtocolParameters(ctx, requestUri, nonce, timestamp);
    ProtocolParametersContents(ctx, requestUri, nonce, timestamp);
    AddEachAll(entries, p);
    AddEachClash(entries, p);
    var added := AddEach(entries, p);
    if added.clash.None? {
      KeysOfAppend(entries, p);
      assert OAUTH_SIGNATURE_KEY !in KeysOf(p);
    }
  }

  /** When `Sign` returns normally it leaves the caller's entries, the injected
      protocol parameters and one `oauth_signature` last; that signature is computed
      over the entries before it was added, so it never covers itself. */
  lemma SignedEntries(ctx: SigningContext, methodName: string, requestUri: string, entries: seq<Entry>,
                      nonce: string, timestamp: string, platform: Platform)
    requires SignEffect(ctx, methodName, Some(requestUri), entries, nonce, timestamp, platform).1.Pass?
    ensures var p := ProtocolParameters(ctx, requestUri, nonce, timestamp);
      var sig := SignatureOf(ctx, methodName, requestUri, entries + p, platform);
      && OAUTH_SIGNATURE_KEY !in KeysOf(entries + p)
      && sig.Success?
      && SignEffect(ctx, methodName, Some(requestUri), entries, nonce, timestamp, platform).0
         == entries + p + [(OAUTH_SIGNATURE_KEY, Text(sig.value))]
  {
    AddEachAll(entries, ProtocolParameters(ctx, requestUri, nonce, timestamp));
  }

  /** `Sign` returns normally only on a dictionary without `oauth_version` and
      `oauth_nonce`, the first two keys it adds. */
  lemma SignPassesWithoutVersionOrNonce(ctx: SigningContext, methodName: string, requestUri: string, entries: seq<Entry>,
                                        nonce: string, timestamp: string, platform: Platform)
    requires SignEffect(ctx, methodName, Some(requestUri), entries, nonce, timestamp, platform).1.Pass?
    ensures OAUTH_VERSION_KEY !in KeysOf(entries) && OAUTH_NONCE_KEY !in KeysOf(entries)
  {
    var p := ProtocolParameters(ctx, requestUri, nonce, timestamp);
    SignSucceedsIff(ctx, methodName, requestUri, entries, nonce, timestamp, platform);
    ProtocolParametersContents(ctx, requestUri, nonce, timestamp);
    assert p[0].0 == OAUTH_VERSION_KEY && p[1].0 == OAUTH_NONCE_KEY by {
      assert p[..5][0] == p[0] && p[..5][1] == p[1];
    }
  }

  /** Computing a signature fails only for an RSA-SHA1 key the platform cannot use. */
  lemma SignatureErrors(ctx: SigningContext, methodName: string, requestUri: string, entries: seq<Entry>, platform: Platform)
    ensures var sig := SignatureOf(ctx, methodName, requestUri, entries, platform);
      sig.Failure? ==> sig.error == CertificateUnavailable && ctx.signatureType == RSASHA1
  {
  }

  /** `Sign` on a fresh dictionary cannot clash: it leaves the protocol parameters,
      followed by the signature over them when that can be computed. */
  lemma SignFreshEffect(ctx: SigningContext, methodName: string, requestUri: string, nonce: string, timestamp: string,
                        platform: Platform)
    ensures var p := ProtocolParameters(ctx, requestUri, nonce, timestamp);
      var sig := SignatureOf(ctx, methodName, requestUri, p, platform);
      SignEffect(ctx, methodName, Some(requestUri), [], nonce, timestamp, platform)
      == if sig.Failure? then (p, Fail(sig.error)) else (p + [(OAUTH_SIGNATURE_KEY, Text(sig.value))], Pass)
  {
    var p := ProtocolParameters(ctx, requestUri, nonce, timestamp);
    ProtocolParametersContents(ctx, requestUri, nonce, timestamp);
    AddEachClash([], p);
    AddEachAll([], p);
    assert [] + p == p;
    assert OAUTH_SIGNATURE_KEY !in KeysOf(p);
  }

  /** A receiver that drops `oauth_signature` from the parameters `Sign` leaves
      recomputes the same signature base and signature (section 3.4.1.3.1 of RFC 5849
      excludes `oauth_signature` from the base string). */
  lemma ServerRecomputesSignature(ctx: SigningContext, methodName: string, requestUri: string, entries: seq<Entry>,
                                  nonce: string, timestamp: string, platform: Platform)
    requires DistinctKeys(entries)
    requires SignEffect(ctx, methodName, Some(requestUri), entries, nonce, timestamp, platform).1.Pass?
    ensures var after := SignEffect(ctx, methodName, Some(requestUri), entries, nonce, timestamp, platform).0;
      var received := RemoveKey(after, OAUTH_SIGNATURE_KEY);
      && received == entries + ProtocolParameters(ctx, requestUri, nonce, timestamp)
      && SignatureOf(ctx, methodName, requestUri, received, platform).Success?
      && Lookup(after, OAUTH_SIGNATURE_KEY) == Some(Text(SignatureOf(ctx, methodName, requestUri, received, platform).value))
  {
    SignedEntries(ctx, methodName, requestUri, entries, nonce, timestamp, platform);
    SignEffectKeepsEntries(ctx, methodName, requestUri, entries, nonce, timestamp, platform);
    var p := ProtocolParameters(ctx, requestUri, nonce, timestamp);
    var sigEntry := (OAUTH_SIGNATURE_KEY, Text(SignatureOf(ctx, methodName, requestUri, entries + p, platform).value));
    RemoveKeyAppend(entries + p, [sigEntry], OAUTH_SIGNATURE_KEY);
    RemoveKeyAbsent(entries + p, OAUTH_SIGNATURE_KEY);
    assert RemoveKey([sigEntry], OAUTH_SIGNATURE_KEY) == [];
    LookupAppend(entries + p, [sigEntry], OAUTH_SIGNATURE_KEY);
  }

  lemma {:induction false} RemoveKeyAppend(a: seq<Entry>, b: seq<Entry>, k: string)
    ensures RemoveKey(a + b, k) == RemoveKey(a, k) + RemoveKey(b, k)
  {
    if a != [] {
      RemoveKeyAppend(a[1..], b, k);
      assert (a + b)[1..] == a[1..] + b;
    } else {
      assert a + b == b;
    }
  }

  lemma {:induction false} RemoveKeyAbsent(a: seq<Entry>, k: string)
    requires k !in KeysOf(a)
    ensures RemoveKey(a, k) == a
  {
    if a != [] {
      assert KeysOf(a) == [a[0].0] + KeysOf(a[1..]);
      RemoveKeyAbsent(a[1..], k);
      assert [a[0]] + a[1..] == a;
    }
  }

  /** Under PLAINTEXT the signature is the signing key itself. */
  lemma PlaintextSignatureIsKey(ctx: SigningContext, methodName: string, requestUri: string, entries: seq<Entry>,
                                nonce: string, timestamp: string, platform: Platform)
    requires DistinctKeys(entries)
    requires ctx.signatureType == PLAINTEXT
    requires SignEffect(ctx, methodName, Some(requestUri), entries, nonce, timestamp, platform).1.Pass?
    ensures Lookup(SignEffect(ctx, methodName, Some(requestUri), entries, nonce, timestamp, platform).0, OAUTH_SIGNATURE_KEY)
         == Some(Text(SigningKey(ctx.consumerSecret, ctx.tokenSecret)))
  {
    ServerRecomputesSignature(ctx, methodName, requestUri, entries, nonce, timestamp, platform);
  }

  /** The signing key reads back: it splits at its one '&' into the escaped consumer
      secret and the escaped token secret ("" when null or empty). */
  lemma SigningKeyReadsBack(consumerSecret: string, tokenSecret: Option<string>)
    ensures var secret := if IsNullOrEmpty(tokenSecret) then "" else tokenSecret.value;
      var parts := Split(SigningKey(consumerSecret, tokenSecret), '&');
      && |parts| == 2
      && Unescape(parts[0]) == Some(consumerSecret)
      && Unescape(parts[1]) == Some(secret)
  {
    var secret := if IsNullOrEmpty(tokenSecret) then "" else tokenSecret.value;
    assert Escape("") == "";
    assert SigningKey(consumerSecret, tokenSecret) == Join([Escape(consumerSecret), Escape(secret)], "&");
    EscapeAlphabet(consumerSecret);
    EscapeAlphabet(secret);
    SplitJoin([Escape(consumerSecret), Escape(secret)], '&');
    UnescapeEscape(consumerSecret);
    UnescapeEscape(secret);
  }

  /** The signature base string reads back: for a method name without '&', it splits
      into the method name, the escaped normalised URI and the escaped normalised
      parameters, and unescaping the last two gives them back. */
  lemma SignatureBaseReadsBack(methodName: string, normalizedUri: string, entries: seq<Entry>, less: (string, string) -> bool)
    requires '&' !in methodName
    ensures var parts := Split(SignatureBase(methodName, normalizedUri, entries, less), '&');
      && |parts| == 3
      && parts[0] == methodName
      && Unescape(parts[1]) == Some(normalizedUri)
      && Unescape(parts[2]) == Some(Normalize(entries, less))
  {
    var n := Normalize(entries, less);
    var parts := [methodName, Escape(normalizedUri), Escape(n)];
    assert parts[1..][1..] == [Escape(n)];
    assert Join(parts[1..], "&") == Escape(normalizedUri) + "&" + Escape(n);
    assert SignatureBase(methodName, normalizedUri, entries, less) == Join(parts, "&");
    EscapeAlphabet(normalizedUri);
    EscapeAlphabet(n);
    SplitJoin(parts, '&');
    UnescapeEscape(normalizedUri);
    UnescapeEscape(n);
  }
}
