/** The `auth-coder-app` edge function: it forwards the caller's provider
    session token to the provider's `auth-redirect` endpoint and hands back
    the upstream `Set-Cookie` header cut into `{key, value}` pairs. The HTTP
    exchange is replaced by parameters: the request as it was parsed, and the
    upstream reply the provider would give. */
module AuthCoderApp {
  import opened Wrappers
  import opened Strings

  /** One `{ key, value }` entry; `value` is `None` where JavaScript has `undefined`. */
  datatype CookiePair = CookiePair(key: string, value: Option<string>)

  /** The request body as `req.json()` left it. */
  datatype RequestBody =
    | Json(redirectUri: Option<string>)
    | Malformed(error: string)

  datatype Request = Request(verb: string, body: RequestBody, sessionToken: Option<string>)

  /** What the `fetch` to the provider produced. */
  datatype Upstream =
    | Reply(status: int, setCookie: Option<string>)
    | Unreachable(error: string)

  /** The call the function makes to the provider, if it gets that far. */
  datatype UpstreamRequest = UpstreamRequest(url: string, sessionToken: Option<string>)

  datatype ResponseBody =
    | Text(text: string)
    | Pairs(cookiePairs: seq<CookiePair>)
    | ErrorMessage(message: string)

  datatype Response = Response(status: int, body: ResponseBody)

  datatype Exchange = Exchange(response: Response, upstreamCall: Option<UpstreamRequest>)

  const NoRedirectUri := "No redirect uri!"
  const NoSetCookie := "No Set-Cookie header!"

  /** A status the `Response` constructor accepts together with a body: in
      the range 200 to 599 and not a null-body status (204, 205, 304), as
      the Fetch Standard's `Response` constructor requires. */
  predicate BodyStatus(status: int) {
    200 <= status <= 599 && status != 204 && status != 205 && status != 304
  }

  /** A JavaScript string is truthy when it is present and not empty. */
  predicate Truthy(s: Option<string>) {
    s.Some? && s.value != ""
  }

  /** `const [key, value] = cookie.split('=')` for one segment. */
  function ParsePair(segment: string): (p: CookiePair)
    ensures p.key == TakeUntil(segment, '=')
    ensures p.value.None? <==> '=' !in segment
    ensures p.value.Some? ==>
      |p.key| < |segment| && p.value.value == TakeUntil(segment[|p.key| + 1..], '=')
  {
    FirstPiece(segment, '=');
    SecondPiece(segment, '=');
    var value := Field(segment, "=", 1);
    CookiePair(Split(segment, "=")[0], value)
  }

  /** `setCookieHeader.split(';').map(...)`: one pair per `;`-separated
      segment, in the order of the segments. */
  function ParseSetCookie(header: string): (pairs: seq<CookiePair>)
    ensures |pairs| == Count(header, ';') + 1 == |Split(header, ";")|
    ensures forall k :: 0 <= k < |pairs| ==> pairs[k] == ParsePair(Split(header, ";")[k])
  {
    SplitCount(header, ';');
    var segments := Split(header, ";");
    seq(|segments|, k requires 0 <= k < |segments| => ParsePair(segments[k]))
  }

  /** The handler of `Deno.serve`: CORS preflight, request guard, the upstream
      call and the status pass-through; every error becomes a 500 carrying
      the error's message. `refused(status)` is the message of the error the
      runtime's `Response` constructor throws for a status it will not pair
      with a body; that throw happens inside the `try`, so it too ends in
      the 500. */
  function Handle(req: Request, serverApi: string, encodeUriComponent: string -> string, upstream: Upstream,
                  refused: int -> string): (r: Exchange)
    // a preflight answers "ok" without reading the body
    ensures req.verb == "OPTIONS" ==> r == Exchange(Response(200, Text("ok")), None)
    // the provider is called exactly when the body names a redirect URI
    ensures r.upstreamCall.Some? <==>
      req.verb != "OPTIONS" && req.body.Json? && Truthy(req.body.redirectUri)
    ensures r.upstreamCall.Some? ==> r.upstreamCall.value == UpstreamRequest(
      serverApi + "/applications/auth-redirect?redirect_uri=" + encodeUriComponent(req.body.redirectUri.value),
      req.sessionToken)
    ensures req.verb != "OPTIONS" && req.body.Json? && !Truthy(req.body.redirectUri) ==>
      r.response == Response(500, ErrorMessage(NoRedirectUri))
    ensures r.upstreamCall.Some? && upstream.Reply? && !Truthy(upstream.setCookie) ==>
      r.response == Response(500, ErrorMessage(NoSetCookie))
    // on success the upstream status is passed through with the parsed pairs
    ensures r.upstreamCall.Some? && upstream.Reply? && Truthy(upstream.setCookie) && BodyStatus(upstream.status) ==>
      r.response == Response(upstream.status, Pairs(ParseSetCookie(upstream.setCookie.value)))
    // ... unless the constructor refuses that status, which the catch turns into a 500
    ensures r.upstreamCall.Some? && upstream.Reply? && Truthy(upstream.setCookie) && !BodyStatus(upstream.status) ==>
      r.response == Response(500, ErrorMessage(refused(upstream.status)))
    // a body that does not parse, or a provider that cannot be reached, ends in the catch with its message
    ensures req.verb != "OPTIONS" && req.body.Malformed? ==>
      r == Exchange(Response(500, ErrorMessage(req.body.error)), None)
    ensures r.upstreamCall.Some? && upstream.Unreachable? ==>
      r.response == Response(500, ErrorMessage(upstream.error))
    // every response that is not the preflight and carries no pairs is a 500
    ensures req.verb != "OPTIONS" && !r.response.body.Pairs? ==>
      r.response.status == 500 && r.response.body.ErrorMessage?
  {
    if req.verb == "OPTIONS" then
      Exchange(Response(200, Text("ok")), None)
    else
      match req.body
      case Malformed(e) => Exchange(Response(500, ErrorMessage(e)), None)
      case Json(uri) =>
        if !Truthy(uri) then Exchange(Response(500, ErrorMessage(NoRedirectUri)), None)
        else
          var call := UpstreamRequest(
            serverApi + "/applications/auth-redirect?redirect_uri=" + encodeUriComponent(uri.value),
            req.sessionToken);
          match upstream
          case Unreachable(e) => Exchange(Response(500, ErrorMessage(e)), Some(call))
          case Reply(status, setCookie) =>
            if !Truthy(setCookie) then Exchange(Response(500, ErrorMessage(NoSetCookie)), Some(call))
            else if !BodyStatus(status) then Exchange(Response(500, ErrorMessage(refused(status))), Some(call))
            else Exchange(Response(status, Pairs(ParseSetCookie(setCookie.value))), Some(call))
  }

  /** Keys are not trimmed: a cookie written after "; " gets a key that
      starts with a space. */
  lemma KeyAfterSemicolonSpaceKeepsSpace(first: string, rest: string)
    requires ';' !in first
    ensures |ParseSetCookie(first + "; " + rest)| >= 2
    ensures ParseSetCookie(first + "; " + rest)[1].key == " " + TakeUntil(TakeUntil(rest, ';'), '=')
  {
    var header := first + "; " + rest;
    var tail := " " + rest;
    assert header == first + [';'] + tail;
    SplitAfterFirst(first, ';', tail);
    var segments := Split(header, ";");
    assert segments[1] == Split(tail, ";")[0];
    FirstPiece(tail, ';');
    TakeUntilCons(' ', rest, ';');
    TakeUntilCons(' ', TakeUntil(rest, ';'), '=');
    assert ParseSetCookie(header)[1] == ParsePair(segments[1]);
  }
}
