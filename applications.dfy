/** The client half of the credential relay (`authenticateApplication`): it
    reads the provider API key out of the session, asks the `auth-coder-app`
    edge function for the provider's cookies, keeps the two cookie names the
    provider uses for app sessions, and writes them into the browser's cookie
    jar on the provider's base domain. */
module Applications {
  import opened Wrappers
  import opened Strings
  import opened Lists
  import AuthCoderApp

  type CookiePair = AuthCoderApp.CookiePair

  const SignedAppToken := "coder_signed_app_token"
  const SubdomainAppSessionToken := "coder_subdomain_app_session_token"
  /** `coderHeaders`: the only cookie names that are written. */
  const CoderCookieNames: seq<string> := [SignedAppToken, SubdomainAppSessionToken]
  /** The one error every failure is rethrown as. */
  const FailedToFetchAuthRedirect := "Failed to fetch auth redirect"

  /** `api.split('//')[1].split('/')[0]`: the host part of the configured
      provider URL. `None` where `[1]` is `undefined` and the call throws. */
  function BaseDomain(api: string): (r: Option<string>)
    ensures r.Some? <==> IndexOf(api, "//").Some?
    ensures r.Some? ==> '/' !in r.value
    ensures r.Some? ==> r.value == TakeUntil(api[IndexOf(api, "//").value + 2..], '/')
  {
    BaseDomainIsHost(api);
    match Field(api, "//", 1)
    case None => None
    case Some(segment) => Some(Split(segment, "/")[0])
  }

  lemma BaseDomainIsHost(api: string)
    ensures Field(api, "//", 1).Some? <==> IndexOf(api, "//").Some?
    ensures Field(api, "//", 1).Some? ==>
      Split(Field(api, "//", 1).value, "/")[0] == TakeUntil(api[IndexOf(api, "//").value + 2..], '/')
  {
    match IndexOf(api, "//")
    case None =>
      assert Split(api, "//") == [api];
    case Some(i) =>
      var rest := api[i + 2..];
      assert Split(api, "//") == [api[..i]] + Split(rest, "//");
      assert Field(api, "//", 1) == Some(Split(rest, "//")[0]);
      HostOfRest(rest);
  }

  /** The first "//"-piece of the text after the scheme, cut at its first
      '/', is that text cut at its first '/'. */
  lemma HostOfRest(rest: string)
    ensures Split(Split(rest, "//")[0], "/")[0] == TakeUntil(rest, '/')
  {
    var n := FirstCut(rest, "//");
    assert n < |rest| ==> rest[n] == '/' by {
      if n < |rest| { assert rest[n..n + 2] == "//"; }
    }
    FirstPiece(rest[..n], '/');
    TakeUntilPrefix(rest, n, '/');
  }

  /** `coderHeaders.includes(cookiePair.key)`. */
  predicate IsCoderPair(p: CookiePair) {
    p.key in CoderCookieNames
  }

  /** The pairs that survive the filter, taken from the header in order. */
  function CoderPairs(pairs: seq<CookiePair>): (r: seq<CookiePair>)
    ensures forall k :: 0 <= k < |r| ==> r[k].key in CoderCookieNames && r[k] in pairs
    ensures forall k :: 0 <= k < |pairs| && pairs[k].key in CoderCookieNames ==> pairs[k] in r
  {
    Filter(pairs, IsCoderPair)
  }

  /** Filtering one more pair filters the pairs before it, then that pair. */
  lemma CoderPairsSnoc(init: seq<CookiePair>, last: CookiePair)
    ensures CoderPairs(init + [last]) == CoderPairs(init) + (if IsCoderPair(last) then [last] else [])
  {
    FilterAppend(init, [last], IsCoderPair);
    assert Filter([last], IsCoderPair) == (if IsCoderPair(last) then [last] else []) by {
      assert [last][1..] == [];
    }
  }

  /** A last pair with another name does not move the last index of `name`. */
  lemma LastIndexOfSnoc(init: seq<CookiePair>, last: CookiePair, name: string)
    requires last.key != name
    ensures LastIndexOf(init + [last], name) == LastIndexOf(init, name)
  {
    assert (init + [last])[..|init|] == init;
  }

  /** For each provider cookie name, the pair the filtered list ends with
      under that name is the header's last pair with that name: the filter
      keeps the header's order. */
  lemma {:induction false} LastCoderPair(pairs: seq<CookiePair>, name: string)
    requires name in CoderCookieNames
    ensures LastIndexOf(CoderPairs(pairs), name).Some? <==> LastIndexOf(pairs, name).Some?
    ensures LastIndexOf(pairs, name).Some? ==>
      CoderPairs(pairs)[LastIndexOf(CoderPairs(pairs), name).value] == pairs[LastIndexOf(pairs, name).value]
    decreases |pairs|
  {
    if pairs != [] {
      var init, last := pairs[..|pairs| - 1], pairs[|pairs| - 1];
      assert pairs == init + [last];
      CoderPairsSnoc(init, last);
      var kept := CoderPairs(init);
      if last.key == name {
        assert IsCoderPair(last);
        assert CoderPairs(pairs) == kept + [last];
        assert LastIndexOf(CoderPairs(pairs), name) == Some(|kept|);
      } else {
        LastCoderPair(init, name);
        assert LastIndexOf(pairs, name) == LastIndexOf(init, name);
        if IsCoderPair(last) {
          LastIndexOfSnoc(kept, last, name);
          assert CoderPairs(pairs) == kept + [last];
        } else {
          assert CoderPairs(pairs) == kept;
        }
      }
    }
  }

  /** A cookie as `js-cookie` stores it: the value and the domain option. */
  datatype Cookie = Cookie(value: Option<string>, domain: string)

  /** The jar after `Cookies.set` has been called for each pair in order. */
  function Written(jar: map<string, Cookie>, pairs: seq<CookiePair>, domain: string): (r: map<string, Cookie>)
    ensures r.Keys == jar.Keys + set j | 0 <= j < |pairs| :: pairs[j].key
    decreases |pairs|
  {
    if pairs == [] then jar
    else
      var last := pairs[|pairs| - 1];
      Written(jar, pairs[..|pairs| - 1], domain)[last.key := Cookie(last.value, domain)]
  }

  /** The index of the last pair named `name`. */
  function LastIndexOf(pairs: seq<CookiePair>, name: string): (r: Option<nat>)
    ensures r.Some? ==> r.value < |pairs| && pairs[r.value].key == name
    ensures r.Some? ==> forall j :: r.value < j < |pairs| ==> pairs[j].key != name
    ensures r.None? ==> forall j :: 0 <= j < |pairs| ==> pairs[j].key != name
    decreases |pairs|
  {
    if pairs == [] then None
    else if pairs[|pairs| - 1].key == name then Some(|pairs| - 1)
    else LastIndexOf(pairs[..|pairs| - 1], name)
  }

  /** What the jar holds under `name` after the writes: the last pair with
      that name wins; a name no pair carries keeps its old entry. */
  lemma {:induction false} WrittenAt(jar: map<string, Cookie>, pairs: seq<CookiePair>, domain: string, name: string)
    ensures LastIndexOf(pairs, name).Some? ==>
      name in Written(jar, pairs, domain) &&
      Written(jar, pairs, domain)[name] == Cookie(pairs[LastIndexOf(pairs, name).value].value, domain)
    ensures LastIndexOf(pairs, name).None? ==>
      (name in Written(jar, pairs, domain) <==> name in jar) &&
      (name in jar ==> Written(jar, pairs, domain)[name] == jar[name])
    decreases |pairs|
  {
    if pairs != [] {
      var init := pairs[..|pairs| - 1];
      WrittenAt(jar, init, domain, name);
      if pairs[|pairs| - 1].key != name {
        assert LastIndexOf(pairs, name) == LastIndexOf(init, name);
      }
    }
  }

  /** Only the two provider cookie names can be added or changed, and every
      cookie added or changed sits on `domain`. */
  lemma OnlyCoderCookiesWritten(jar: map<string, Cookie>, pairs: seq<CookiePair>, domain: string, name: string)
    requires name in Written(jar, CoderPairs(pairs), domain)
    requires name !in jar || Written(jar, CoderPairs(pairs), domain)[name] != jar[name]
    ensures name in CoderCookieNames
    ensures Written(jar, CoderPairs(pairs), domain)[name].domain == domain
  {
    WrittenAt(jar, CoderPairs(pairs), domain, name);
  }

  /** A pair whose key is not exactly one of the two names leaves the jar's
      entry for that key as it was, whatever else the header held. */
  lemma OtherCookiesUntouched(jar: map<string, Cookie>, pairs: seq<CookiePair>, domain: string, name: string)
    requires name !in CoderCookieNames
    ensures name in Written(jar, CoderPairs(pairs), domain) <==> name in jar
    ensures name in jar ==> Written(jar, CoderPairs(pairs), domain)[name] == jar[name]
  {
    WrittenAt(jar, CoderPairs(pairs), domain, name);
  }

  /** Each provider cookie ends up holding the value of the header's last
      pair with its name, on `domain`: the writes follow the header's order,
      so a later duplicate overwrites an earlier one. */
  lemma LastHeaderPairWins(jar: map<string, Cookie>, pairs: seq<CookiePair>, domain: string, name: string)
    requires name in CoderCookieNames && LastIndexOf(pairs, name).Some?
    ensures name in Written(jar, CoderPairs(pairs), domain)
    ensures Written(jar, CoderPairs(pairs), domain)[name] == Cookie(pairs[LastIndexOf(pairs, name).value].value, domain)
  {
    LastCoderPair(pairs, name);
    WrittenAt(jar, CoderPairs(pairs), domain, name);
  }

  /** The browser cookie jar, as far as `js-cookie` is concerned. */
  class CookieJar {
    var cookies: map<string, Cookie>

    constructor ()
      ensures cookies == map[]
    {
      cookies := map[];
    }

    /** `Cookies.set(name, value, { domain })`. */
    method Set(name: string, value: Option<string>, domain: string)
      modifies this
      ensures cookies == old(cookies)[name := Cookie(value, domain)]
    {
      cookies := cookies[name := Cookie(value, domain)];
    }
  }

  /** `supabase.auth.getSession()` with the access token already decoded:
      a session carries the `app_metadata.api_key` claim or not. */
  datatype SessionLookup =
    | LookupFailed(message: string)
    | NoSession
    | Session(apiKey: Option<string>)

  /** What `supabase.functions.invoke('auth-coder-app', ...)` resolved to. */
  datatype InvokeReply =
    | InvokeFailed(message: string)
    | NoData
    | Data(cookiePairs: Option<seq<CookiePair>>)

  /** The edge-function call: the session token header and the body. */
  datatype Invocation = Invocation(sessionToken: string, redirectUri: string)

  /** The replies that let the relay reach the cookie writes. */
  predicate Usable(reply: InvokeReply) {
    reply.Data? && reply.cookiePairs.Some? && |reply.cookiePairs.value| > 0
  }

  /** `authenticateApplication(redirectUri)`. The edge function is invoked
      only with a session that carries an API key; cookies are written only
      after every check has passed, and any failure leaves the jar as it was
      and surfaces as the single error `FailedToFetchAuthRedirect`. */
  method AuthenticateApplication(jar: CookieJar, redirectUri: string, session: SessionLookup,
                                 serverApi: string, reply: InvokeReply)
    returns (invoked: Option<Invocation>, outcome: Result<()>)
    modifies jar
    ensures invoked.Some? <==> session.Session? && AuthCoderApp.Truthy(session.apiKey)
    ensures invoked.Some? ==> invoked.value == Invocation(session.apiKey.value, redirectUri)
    ensures outcome.Ok? <==> invoked.Some? && Usable(reply) && BaseDomain(serverApi).Some?
    ensures outcome.Err? ==> outcome.message == FailedToFetchAuthRedirect && jar.cookies == old(jar.cookies)
    ensures outcome.Ok? ==>
      jar.cookies == Written(old(jar.cookies), CoderPairs(reply.cookiePairs.value), BaseDomain(serverApi).value)
  {
    invoked := None;
    if !session.Session? || !AuthCoderApp.Truthy(session.apiKey) {
      return None, Err(FailedToFetchAuthRedirect);
    }
    invoked := Some(Invocation(session.apiKey.value, redirectUri));
    if !Usable(reply) {
      return invoked, Err(FailedToFetchAuthRedirect);
    }
    var domain := BaseDomain(serverApi);
    if domain.None? {
      return invoked, Err(FailedToFetchAuthRedirect);
    }
    var writes := CoderPairs(reply.cookiePairs.value);
    for i := 0 to |writes|
      invariant jar.cookies == Written(old(jar.cookies), writes[..i], domain.value)
    {
      assert writes[..i + 1][..i] == writes[..i];
      jar.Set(writes[i].key, writes[i].value, domain.value);
    }
    assert writes[..|writes|] == writes;
    outcome := Ok(());
  }
}
