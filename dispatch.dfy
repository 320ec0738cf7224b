/** `OAuthSession.MakeRequest`: how the signed parameters are split between the
    `Authorization: OAuth ...` header (the protocol parameters, section 3.5.1 of
    RFC 5849) and the query string or form body (all other parameters), and which
    HTTP request goes out. */
module Dispatch {
  import opened Wrappers
  import opened Strings
  import opened PercentEncoding
  import opened Parameters
  import opened Signing
  import opened Foreign

  /** The body of an outgoing request: none, the caller's content, or a multipart
      form with one field per request parameter. */
  datatype Body = NoBody | Content(content: string) | Form(fields: map<string, Value>)

  /** An outgoing HTTP request: the verb actually used, the target URI, the value of
      the `Authorization: OAuth` header, the caller's extra headers and the body. */
  datatype Request = Request(verb: string, uri: string, authorization: string, headers: map<string, string>, body: Body)

  /** One header item: `key="escaped value"`. */
  function HeaderItem(e: Entry): string
  {
    e.0 + "=\"" + Escape(Display(e.1)) + "\""
  }

  /** The entries with a protocol (`oauth_`) key, in order. */
  function ProtocolEntries(entries: seq<Entry>): seq<Entry>
  {
    if entries == [] then []
    else (if IsProtocolKey(entries[0].0) then [entries[0]] else []) + ProtocolEntries(entries[1..])
  }

  /** The protocol entries are exactly the entries with the `oauth_` prefix. */
  lemma {:induction false} ProtocolEntriesMembers(entries: seq<Entry>)
    ensures forall e :: e in ProtocolEntries(entries) <==> e in entries && IsProtocolKey(e.0)
  {
    if entries != [] {
      ProtocolEntriesMembers(entries[1..]);
      assert entries == [entries[0]] + entries[1..];
    }
  }

  /** The entries with any other key, in order. */
  function NonProtocolEntries(entries: seq<Entry>): seq<Entry>
  {
    if entries == [] then []
    else (if IsProtocolKey(entries[0].0) then [] else [entries[0]]) + NonProtocolEntries(entries[1..])
  }

  /** The non-protocol entries are exactly the entries without the `oauth_` prefix. */
  lemma {:induction false} NonProtocolEntriesMembers(entries: seq<Entry>)
    ensures forall e :: e in NonProtocolEntries(entries) <==> e in entries && !IsProtocolKey(e.0)
  {
    if entries != [] {
      NonProtocolEntriesMembers(entries[1..]);
      assert entries == [entries[0]] + entries[1..];
    }
  }

  /** The request parameters `MakeRequest` collects: every non-protocol key with its
      first value. */
  function RequestParameters(entries: seq<Entry>): map<string, Value>
  {
    if entries == [] then map[]
    else
      var m := RequestParameters(entries[1..]);
      if IsProtocolKey(entries[0].0) then m else m[entries[0].0 := entries[0].1]
  }

  function HeaderItems(entries: seq<Entry>): (items: seq<string>)
    ensures |items| == |entries|
    ensures forall i :: 0 <= i < |entries| ==> items[i] == HeaderItem(entries[i])
  {
    if entries == [] then [] else [HeaderItem(entries[0])] + HeaderItems(entries[1..])
  }

  /** The `Authorization: OAuth` header value: the protocol entries' items joined by ", ". */
  function AuthorizationHeader(entries: seq<Entry>): string
  {
    Join(HeaderItems(ProtocolEntries(entries)), ", ")
  }

  /** The loop of `MakeRequest` over the signed parameters: protocol entries go into
      the header, every other key goes, with its first value, into the request
      parameters. */
  method SplitParameters(entries: seq<Entry>) returns (header: string, requestParameters: map<string, Value>)
    ensures header == AuthorizationHeader(entries)
    ensures forall k :: k in requestParameters <==> k in KeysOf(entries) && !IsProtocolKey(k)
    ensures forall k :: k in requestParameters ==> Lookup(entries, k) == Some(requestParameters[k])
    ensures requestParameters == RequestParameters(entries)
  {
    var authHeader := "";
    requestParameters := map[];
    var i := 0;
    while i < |entries|
      invariant 0 <= i <= |entries|
      invariant authHeader == PendingHeader(entries[..i])
      invariant requestParameters == FirstWins(entries[..i])
    {
      var e := entries[i];
      assert entries[..i + 1] == entries[..i] + [e];
      PendingHeaderStep(entries[..i], e);
      FirstWinsStep(entries[..i], e);
      if IsProtocolKey(e.0) {
        authHeader := authHeader + HeaderItem(e) + ", ";
      } else if e.0 !in requestParameters {
        requestParameters := requestParameters[e.0 := e.1];
      }
      i := i + 1;
    }
    assert entries[..i] == entries;
    PendingHeaderTrim(entries);
    if |authHeader| > 0 {
      authHeader := authHeader[..|authHeader| - 2];
    }
    header := authHeader;
    FirstWinsCollected(entries);
    RequestParametersUnique(entries, requestParameters);
  }

  /** The request parameters the loop of `SplitParameters` has collected from
      `prefix`: its non-protocol keys, each with its first value. */
  ghost predicate Collected(prefix: seq<Entry>, m: map<string, Value>)
  {
    && (forall k :: k in m <==> k in KeysOf(prefix) && !IsProtocolKey(k))
    && (forall k :: k in m ==> Lookup(prefix, k) == Some(m[k]))
  }

  /** The non-protocol entries of `prefix` as a loop over it collects them: the
      first value of each key is kept. */
  function FirstWins(prefix: seq<Entry>): map<string, Value>
  {
    if prefix == [] then map[]
    else
      var m := FirstWins(prefix[..|prefix| - 1]);
      var e := prefix[|prefix| - 1];
      if !IsProtocolKey(e.0) && e.0 !in m then m[e.0 := e.1] else m
  }

  lemma FirstWinsStep(prefix: seq<Entry>, e: Entry)
    ensures FirstWins(prefix + [e])
         == if !IsProtocolKey(e.0) && e.0 !in FirstWins(prefix) then FirstWins(prefix)[e.0 := e.1] else FirstWins(prefix)
  {
    assert (prefix + [e])[..|prefix|] == prefix;
  }

  lemma {:induction false} FirstWinsCollected(prefix: seq<Entry>)
    ensures Collected(prefix, FirstWins(prefix))
  {
    if prefix == [] {
      assert KeysOf(prefix) == [];
    } else {
      var init := prefix[..|prefix| - 1];
      FirstWinsCollected(init);
      CollectedStep(init, prefix[|prefix| - 1], FirstWins(init));
      assert init + [prefix[|prefix| - 1]] == prefix;
    }
  }

  lemma CollectedStep(prefix: seq<Entry>, e: Entry, m: map<string, Value>)
    requires Collected(prefix, m)
    ensures Collected(prefix + [e], if !IsProtocolKey(e.0) && e.0 !in m then m[e.0 := e.1] else m)
  {
    KeysOfAppend(prefix, [e]);
    var m' := if !IsProtocolKey(e.0) && e.0 !in m then m[e.0 := e.1] else m;
    forall k | k in m' ensures Lookup(prefix + [e], k) == Some(m'[k]) {
      LookupAppend(prefix, [e], k);
    }
  }

  /** What the header builder holds before its trailing ", " is removed. */
  function PendingHeader(entries: seq<Entry>): string
  {
    Terminated(HeaderItems(ProtocolEntries(entries)), ", ")
  }

  /** The request `MakeRequest` sends: its verb, its target (the URI, extended by
      the request parameters for a GET or a call with content) and its body. The
      method is compared with GET, POST and PUT ignoring case. */
  function BuildRequest(httpMethod: HttpMethod, uri: string, header: string, requestParameters: map<string, Value>,
                        headers: map<string, string>, content: Option<string>, platform: Platform): Request
  {
    var target := if (SameMethod(httpMethod, GET) || content.Some?) && |requestParameters| > 0
                  then platform.extendQuery(uri, requestParameters) else uri;
    if content.Some? then Request("POST", target, header, headers, Content(content.value))
    else if (SameMethod(httpMethod, POST) || SameMethod(httpMethod, PUT)) && |requestParameters| > 0 then
      Request("POST", target, header, headers, Form(requestParameters))
    else if SameMethod(httpMethod, POST) then Request("POST", target, header, headers, NoBody)
    else Request("GET", target, header, headers, NoBody)
  }

  /** Where `MakeRequest` puts the request parameters. A GET, or any call with
      content, carries them in the query; a POST or PUT without content carries
      them as a form, to the URI as given; content and forms always go out with
      POST, and everything else with GET. So a call with any other method and no
      content drops them. */
  lemma BuildRequestRoutes(httpMethod: HttpMethod, uri: string, header: string, requestParameters: map<string, Value>,
                           headers: map<string, string>, content: Option<string>, platform: Platform)
    ensures var r := BuildRequest(httpMethod, uri, header, requestParameters, headers, content, platform);
      && (r.verb == "GET" || r.verb == "POST")
      && r.authorization == header && r.headers == headers
      && (r.body.Form? ==> r.body.fields == requestParameters && r.uri == uri && r.verb == "POST")
      && ((SameMethod(httpMethod, GET) || content.Some?) && |requestParameters| > 0 ==>
            r.uri == platform.extendQuery(uri, requestParameters))
      && ((SameMethod(httpMethod, POST) || SameMethod(httpMethod, PUT)) && content.None? && |requestParameters| > 0 ==>
            r.body == Form(requestParameters) && r.uri == uri && r.verb == "POST")
      && (content.Some? ==> r.body == Content(content.value) && r.verb == "POST")
      && (!SameMethod(httpMethod, GET) && !SameMethod(httpMethod, POST) && !SameMethod(httpMethod, PUT) && content.None? ==>
            r.uri == uri && r.body == NoBody && r.verb == "GET")
  {
    assert UpperAscii(GET.name) == "GET" && UpperAscii(POST.name) == "POST" && UpperAscii(PUT.name) == "PUT";
  }

  /** The method name is compared ignoring case: a POST named "post", with request
      parameters and no content, still sends them as a form. */
  lemma LowerCaseMethodRoutes(uri: string, header: string, requestParameters: map<string, Value>,
                              headers: map<string, string>, platform: Platform)
    requires |requestParameters| > 0
    ensures BuildRequest(HttpMethod("post"), uri, header, requestParameters, headers, None, platform).body == Form(requestParameters)
  {
    assert UpperAscii("post") == "POST";
    assert SameMethod(HttpMethod("post"), POST);
  }

  /** Parses `key="value", key="value"` back into unescaped pairs. */
  function ParseAuthorizationHeader(h: string): Option<seq<(string, string)>>
  {
    if h == "" then Some([]) else ParseHeaderItems(Split(" " + h, ','))
  }

  function ParseHeaderItems(pieces: seq<string>): Option<seq<(string, string)>>
  {
    if pieces == [] then Some([])
    else match (ParseHeaderItem(pieces[0]), ParseHeaderItems(pieces[1..]))
      case (Some(p), Some(ps)) => Some([p] + ps)
      case _ => None
  }

  /** One piece ` key="value"` (after the ',' that separates it from the previous one). */
  function ParseHeaderItem(piece: string): Option<(string, string)>
  {
    if |piece| < 1 || piece[0] != ' ' then None
    else
      var (k, rest) := SplitFirst(piece[1..], '=');
      if rest.None? || |rest.value| < 2 || rest.value[0] != '"' || rest.value[|rest.value| - 1] != '"' then None
      else match Unescape(rest.value[1..|rest.value| - 1])
        case None => None
        case Some(v) => Some((k, v))
  }

  /** The pairs a receiver expects to read from the header: key and displayed value. */
  function DisplayPairs(entries: seq<Entry>): (ps: seq<(string, string)>)
    ensures |ps| == |entries|
    ensures forall i :: 0 <= i < |entries| ==> ps[i] == (entries[i].0, Display(entries[i].1))
  {
    if entries == [] then [] else [(entries[0].0, Display(entries[0].1))] + DisplayPairs(entries[1..])
  }

  // ---------------------------------------------------------------------------
  // Properties

  lemma {:induction false} ProtocolEntriesAppend(a: seq<Entry>, b: seq<Entry>)
    ensures ProtocolEntries(a + b) == ProtocolEntries(a) + ProtocolEntries(b)
  {
    if a != [] {
      ProtocolEntriesAppend(a[1..], b);
      assert (a + b)[1..] == a[1..] + b;
    } else {
      assert a + b == b;
    }
  }

  lemma HeaderItemsAppend(a: seq<Entry>, b: seq<Entry>)
    ensures HeaderItems(a + b) == HeaderItems(a) + HeaderItems(b)
  {
  }

  lemma {:induction false} TerminatedAppend(parts: seq<string>, x: string, sep: string)
    ensures Terminated(parts + [x], sep) == Terminated(parts, sep) + x + sep
  {
    if parts != [] {
      TerminatedAppend(parts[1..], x, sep);
      assert (parts + [x])[1..] == parts[1..] + [x];
    } else {
      assert Terminated([x], sep) == x + sep + Terminated([], sep);
    }
  }

  lemma {:induction false} NonProtocolEntriesAppend(a: seq<Entry>, b: seq<Entry>)
    ensures NonProtocolEntries(a + b) == NonProtocolEntries(a) + NonProtocolEntries(b)
  {
    if a != [] {
      NonProtocolEntriesAppend(a[1..], b);
      assert (a + b)[1..] == a[1..] + b;
    } else {
      assert a + b == b;
    }
  }

  lemma {:induction false} NonProtocolEntriesNone(a: seq<Entry>)
    requires forall i :: 0 <= i < |a| ==> IsProtocolKey(a[i].0)
    ensures NonProtocolEntries(a) == []
  {
    if a != [] {
      NonProtocolEntriesNone(a[1..]);
    }
  }

  /** `Sign` adds protocol parameters only: whether it returns or throws, the other
      entries are those the caller passed, in the same order. */
  lemma SignKeepsOtherEntries(ctx: SigningContext, methodName: string, requestUri: Option<string>, entries: seq<Entry>,
                              nonce: string, timestamp: string, platform: Platform)
    ensures NonProtocolEntries(SignEffect(ctx, methodName, requestUri, entries, nonce, timestamp, platform).0)
         == NonProtocolEntries(entries)
  {
    if requestUri.Some? {
      var p := ProtocolParameters(ctx, requestUri.value, nonce, timestamp);
      var added := AddEach(entries, p);
      AddedKeepsOtherEntries(entries, p);
      SignEffectShape(ctx, methodName, requestUri.value, entries, nonce, timestamp, platform);
      NonProtocolAfterSignature(added.entries, SignEffect(ctx, methodName, requestUri, entries, nonce, timestamp, platform).0);
    }
  }

  /** Appending the signature entry leaves the non-protocol entries as they were. */
  lemma NonProtocolAfterSignature(added: seq<Entry>, after: seq<Entry>)
    requires after == added || (|after| == |added| + 1 && after[..|added|] == added && after[|added|].0 == OAUTH_SIGNATURE_KEY)
    ensures NonProtocolEntries(after) == NonProtocolEntries(added)
  {
    if after != added {
      var last := after[|after| - 1];
      assert after == added + [last];
      NonProtocolEntriesAppend(added, [last]);
      assert IsProtocolKey(last.0) by {
        assert OAUTH_SIGNATURE_KEY[..|OAUTH_PARAMETER_PREFIX|] == OAUTH_PARAMETER_PREFIX;
      }
      NonProtocolEntriesNone([last]);
    }
  }

  lemma AddedKeepsOtherEntries(entries: seq<Entry>, p: seq<Entry>)
    requires forall i :: 0 <= i < |p| ==> IsProtocolKey(p[i].0)
    ensures NonProtocolEntries(AddEach(entries, p).entries) == NonProtocolEntries(entries)
  {
    AddEachAppends(entries, p);
    var n := |AddEach(entries, p).entries| - |entries|;
    NonProtocolEntriesAppend(entries, p[..n]);
    NonProtocolEntriesNone(p[..n]);
  }

  /** Keeping only the other entries twice is keeping them once. */
  lemma {:induction false} NonProtocolEntriesIdempotent(a: seq<Entry>)
    ensures NonProtocolEntries(NonProtocolEntries(a)) == NonProtocolEntries(a)
  {
    if a != [] {
      NonProtocolEntriesIdempotent(a[1..]);
      var head := if IsProtocolKey(a[0].0) then [] else [a[0]];
      NonProtocolEntriesAppend(head, NonProtocolEntries(a[1..]));
      if !IsProtocolKey(a[0].0) {
        assert NonProtocolEntries(head) == head by {
          assert head[1..] == [];
        }
      } else {
        assert head + NonProtocolEntries(a[1..]) == NonProtocolEntries(a[1..]);
      }
    }
  }

  /** The request parameters hold every non-protocol key, with the value it was
      first added with. */
  lemma {:induction false} RequestParametersContents(entries: seq<Entry>)
    ensures var m := RequestParameters(entries);
      && (forall k :: k in m <==> k in KeysOf(entries) && !IsProtocolKey(k))
      && (forall k :: k in m ==> Lookup(entries, k) == Some(m[k]))
  {
    if entries != [] {
      RequestParametersContents(entries[1..]);
    }
  }

  /** The request parameters are determined by their keys and first values. */
  lemma RequestParametersUnique(entries: seq<Entry>, m: map<string, Value>)
    requires forall k :: k in m <==> k in KeysOf(entries) && !IsProtocolKey(k)
    requires forall k :: k in m ==> Lookup(entries, k) == Some(m[k])
    ensures m == RequestParameters(entries)
  {
    RequestParametersContents(entries);
    var r := RequestParameters(entries);
    assert m.Keys == r.Keys;
    forall k | k in m ensures m[k] == r[k] {
      assert Lookup(entries, k) == Some(r[k]);
    }
  }

  lemma PendingHeaderStep(entries: seq<Entry>, e: Entry)
    ensures IsProtocolKey(e.0) ==> PendingHeader(entries + [e]) == PendingHeader(entries) + HeaderItem(e) + ", "
    ensures !IsProtocolKey(e.0) ==> PendingHeader(entries + [e]) == PendingHeader(entries)
  {
    var pe := ProtocolEntries(entries);
    ProtocolEntriesAppend(entries, [e]);
    if IsProtocolKey(e.0) {
      assert ProtocolEntries([e]) == [e];
      HeaderItemsAppend(pe, [e]);
      assert HeaderItems([e]) == [HeaderItem(e)];
      TerminatedAppend(HeaderItems(pe), HeaderItem(e), ", ");
    } else {
      assert ProtocolEntries([e]) == [];
      assert pe + [] == pe;
    }
  }

  lemma PendingHeaderTrim(entries: seq<Entry>)
    ensures var t := PendingHeader(entries);
      if |t| > 0 then |t| >= 2 && t[..|t| - 2] == AuthorizationHeader(entries) else AuthorizationHeader(entries) == t
  {
    var items := HeaderItems(ProtocolEntries(entries));
    if |items| > 0 {
      TerminatedIsJoinPlusSep(items, ", ");
      var j := Join(items, ", ");
      assert (j + ", ")[..|j + ", "| - 2] == j;
    }
  }

  /** Prefixing every part with a space and joining on ',' is joining on ", " behind
      one leading space. */
  lemma {:induction false} JoinIndented(items: seq<string>)
    requires |items| > 0
    ensures Join(Indented(items), ",") == " " + Join(items, ", ")
  {
    if |items| > 1 {
      JoinIndented(items[1..]);
      assert Indented(items)[1..] == Indented(items[1..]);
    }
  }

  function Indented(items: seq<string>): (r: seq<string>)
    ensures |r| == |items|
    ensures forall i :: 0 <= i < |items| ==> r[i] == " " + items[i]
  {
    if items == [] then [] else [" " + items[0]] + Indented(items[1..])
  }

  /** A header item reads back as its key and value, when the key has no '='. */
  lemma ParseHeaderItemOf(e: Entry)
    requires '=' !in e.0
    ensures ParseHeaderItem(" " + HeaderItem(e)) == Some((e.0, Display(e.1)))
  {
    var v := Display(e.1);
    var quoted := "\"" + Escape(v) + "\"";
    assert (" " + HeaderItem(e))[1..] == e.0 + ['='] + quoted;
    SplitFirstAt(e.0, '=', quoted);
    assert quoted[1..|quoted| - 1] == Escape(v);
    UnescapeEscape(v);
  }

  lemma {:induction false} ParseHeaderItemsOf(entries: seq<Entry>)
    requires forall i :: 0 <= i < |entries| ==> '=' !in entries[i].0
    ensures ParseHeaderItems(Indented(HeaderItems(entries))) == Some(DisplayPairs(entries))
  {
    if entries != [] {
      ParseHeaderItemOf(entries[0]);
      ParseHeaderItemsOf(entries[1..]);
      assert Indented(HeaderItems(entries))[1..] == Indented(HeaderItems(entries[1..]));
      assert DisplayPairs(entries) == [(entries[0].0, Display(entries[0].1))] + DisplayPairs(entries[1..]);
    }
  }

  /** The Authorization header reads back: a receiver that splits it and unescapes
      each quoted value once recovers every protocol entry, in order, with its
      displayed value, as long as protocol keys contain neither ',' nor '='. */
  lemma AuthorizationHeaderReadsBack(entries: seq<Entry>)
    requires forall e :: e in entries && IsProtocolKey(e.0) ==> ',' !in e.0 && '=' !in e.0
    ensures ParseAuthorizationHeader(AuthorizationHeader(entries)) == Some(DisplayPairs(ProtocolEntries(entries)))
  {
    var pe := ProtocolEntries(entries);
    var items := HeaderItems(pe);
    ProtocolEntriesMembers(entries);
    assert forall i :: 0 <= i < |pe| ==> pe[i] in pe;
    ParseHeaderItemsOf(pe);
    if |items| > 0 {
      JoinIndented(items);
      IndentedItemsCommaFree(pe);
      SplitJoin(Indented(items), ',');
      assert (" " + Join(items, ", "))[1..] == Join(items, ", ");
      assert AuthorizationHeader(entries) != "" by {
        assert |" " + Join(items, ", ")| == |Join(Indented(items), ",")|;
        assert |Join(Indented(items), ",")| >= 1 by {
          assert Split(Join(Indented(items), ","), ',')[0] == " " + items[0];
        }
      }
    }
  }

  lemma IndentedItemsCommaFree(pe: seq<Entry>)
    requires forall i :: 0 <= i < |pe| ==> ',' !in pe[i].0
    ensures forall i :: 0 <= i < |pe| ==> ',' !in Indented(HeaderItems(pe))[i]
  {
    forall i | 0 <= i < |pe| ensures ',' !in Indented(HeaderItems(pe))[i] {
      HeaderItemCommaFree(pe[i]);
    }
  }

  lemma HeaderItemCommaFree(e: Entry)
    requires ',' !in e.0
    ensures ',' !in " " + HeaderItem(e)
  {
    var v := Escape(Display(e.1));
    EscapeAlphabet(Display(e.1));
    var t := " " + HeaderItem(e);
    assert t == " " + e.0 + "=\"" + v + "\"";
    forall j | 0 <= j < |t| ensures t[j] != ',' {
      if 1 <= j < 1 + |e.0| {
        assert t[j] == e.0[j - 1];
      } else if 3 + |e.0| <= j < 3 + |e.0| + |v| {
        assert t[j] == v[j - 3 - |e.0|];
      }
    }
  }

  /** Under RSA-SHA1 the Base64 signature is escaped when `Sign` stores it and again
      when the header is written, so a receiver that unescapes the header once reads
      the escaped signature, not the Base64 text. */
  lemma RsaSignatureEscapedTwice(ctx: SigningContext, methodName: string, requestUri: string, entries: seq<Entry>,
                                 nonce: string, timestamp: string, platform: Platform, base64: string)
    requires DistinctKeys(entries)
    requires forall e :: e in entries && IsProtocolKey(e.0) ==> ',' !in e.0 && '=' !in e.0
    requires ctx.signatureType == RSASHA1
    requires platform.rsaSha1(ctx.consumerKey, ctx.consumerSecret,
               SignatureBase(methodName, platform.normalizeUri(requestUri),
                             entries + ProtocolParameters(ctx, requestUri, nonce, timestamp), platform.less)) == Some(base64)
    requires SignEffect(ctx, methodName, Some(requestUri), entries, nonce, timestamp, platform).1.Pass?
    ensures var signed := SignEffect(ctx, methodName, Some(requestUri), entries, nonce, timestamp, platform).0;
      var read := ParseAuthorizationHeader(AuthorizationHeader(signed));
      && read.Some?
      && (OAUTH_SIGNATURE_KEY, Escape(base64)) in read.value
  {
    var p := ProtocolParameters(ctx, requestUri, nonce, timestamp);
    SignedEntries(ctx, methodName, requestUri, entries, nonce, timestamp, platform);
    var sigEntry := (OAUTH_SIGNATURE_KEY, Text(Escape(base64)));
    var signed := entries + p + [sigEntry];
    ProtocolKeysPlain(ctx, requestUri, nonce, timestamp);
    assert forall e :: e in signed ==> e in entries || e in p || e == sigEntry;
    AuthorizationHeaderReadsBack(signed);
    SignatureInHeader(signed, sigEntry);
  }

  /** The protocol keys `Sign` injects contain neither ',' nor '='. */
  lemma ProtocolKeysPlain(ctx: SigningContext, requestUri: string, nonce: string, timestamp: string)
    ensures forall e :: e in ProtocolParameters(ctx, requestUri, nonce, timestamp) ==> ',' !in e.0 && '=' !in e.0
  {
    var p := ProtocolParameters(ctx, requestUri, nonce, timestamp);
    var known := {OAUTH_VERSION_KEY, OAUTH_NONCE_KEY, OAUTH_TIMESTAMP_KEY, OAUTH_SIGNATURE_METHOD_KEY,
                  OAUTH_CONSUMER_KEY_KEY, OAUTH_CALLBACK_KEY, OAUTH_VERIFIER_KEY, OAUTH_TOKEN_KEY};
    var fixed := FixedParameters(ctx, nonce, timestamp);
    var cb := OptionalParameter(OAUTH_CALLBACK_KEY, if SendsCallback(ctx, requestUri) then ctx.callbackUrl else None);
    var vf := OptionalParameter(OAUTH_VERIFIER_KEY, if IsNullOrEmpty(ctx.verifier) then None else ctx.verifier);
    var tk := OptionalParameter(OAUTH_TOKEN_KEY, if IsNullOrEmpty(ctx.token) then None else ctx.token);
    FixedParametersFacts(ctx, nonce, timestamp);
    OptionalParameterFacts(OAUTH_CALLBACK_KEY, if SendsCallback(ctx, requestUri) then ctx.callbackUrl else None);
    OptionalParameterFacts(OAUTH_VERIFIER_KEY, if IsNullOrEmpty(ctx.verifier) then None else ctx.verifier);
    OptionalParameterFacts(OAUTH_TOKEN_KEY, if IsNullOrEmpty(ctx.token) then None else ctx.token);
    KnownKeysPlain();
    forall e | e in p ensures e.0 in known {
      assert e in fixed || e in cb || e in vf || e in tk;
    }
  }

  lemma KnownKeysPlain()
    ensures forall k :: k in {OAUTH_VERSION_KEY, OAUTH_NONCE_KEY, OAUTH_TIMESTAMP_KEY, OAUTH_SIGNATURE_METHOD_KEY,
                              OAUTH_CONSUMER_KEY_KEY, OAUTH_CALLBACK_KEY, OAUTH_VERIFIER_KEY, OAUTH_TOKEN_KEY}
                     ==> ',' !in k && '=' !in k
  {
  }

  lemma SignatureInHeader(signed: seq<Entry>, sigEntry: Entry)
    requires sigEntry in signed && IsProtocolKey(sigEntry.0)
    ensures (sigEntry.0, Display(sigEntry.1)) in DisplayPairs(ProtocolEntries(signed))
  {
    var pe := ProtocolEntries(signed);
    ProtocolEntriesMembers(signed);
    assert sigEntry in pe;
    var j :| 0 <= j < |pe| && pe[j] == sigEntry;
    assert DisplayPairs(pe)[j] == (sigEntry.0, Display(sigEntry.1));
  }
}
