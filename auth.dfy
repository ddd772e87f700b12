/**
 * The `authenticate` middleware: it takes the access token from an
 * `Authorization: Bearer <token>` header, else from the `accessToken`
 * cookie, answers 400 when there is none, and otherwise lets the request
 * through with the decoded payload or answers 401. `jwt.verify` is the
 * parameter `verify`: it gives the payload of a token it accepts under a
 * secret, and nothing for one it rejects.
 */
module Auth {
  import opened Wrappers
  import opened Text

  const BearerPrefix := "Bearer "

  /** `process.env.ACCESS_TOKEN_SECRET || "dev-secret"` */
  function JwtSecret(env: Option<string>): (s: string)
    ensures s != ""
    ensures env.Some? && env.value != "" ==> s == env.value
    ensures env.None? || env.value == "" ==> s == "dev-secret"
  {
    if env.Some? && env.value != "" then env.value else "dev-secret"
  }

  /**
   * `authHeader?.startsWith("Bearer ") ? authHeader.split(" ")[1] : null`:
   * the second space-separated field of a header that starts with the
   * prefix, or nothing.
   */
  function HeaderToken(authorization: Option<string>): (r: Option<string>)
    ensures r.Some? <==> authorization.Some? && StartsWith(authorization.value, BearerPrefix)
    ensures r.Some? ==> ' ' !in r.value
  {
    if authorization.Some? && StartsWith(authorization.value, BearerPrefix) then
      var h := authorization.value;
      assert h == "Bearer" + [' '] + h[7..];
      SplitAfterWord("Bearer", h[7..], ' ');
      Some(Split(h, ' ')[1])
    else None
  }

  /** `tokenFromHeader || req.cookies?.accessToken`, with an empty result read as no token. */
  function SelectToken(authorization: Option<string>, cookie: Option<string>): (r: Option<string>)
    ensures r.Some? ==> r.value != ""
    ensures r.Some? ==> r == HeaderToken(authorization) || r == cookie
  {
    var fromHeader := HeaderToken(authorization);
    if fromHeader.Some? && fromHeader.value != "" then fromHeader
    else if cookie.Some? && cookie.value != "" then cookie
    else None
  }

  /** What the middleware does with the request. */
  datatype AuthOutcome<P> =
    | Proceed(user: P)                     // `req.user = user`, then `next()` once
    | Respond(status: int, message: string) // `res.status(status).json(...)`; `next` is not called

  const TokenNotFound := "Token Not Found"
  const InvalidToken := "Invalid Token"

  method Authenticate<P>(authorization: Option<string>, cookie: Option<string>, secretEnv: Option<string>,
                         verify: (string, string) -> Option<P>)
    returns (outcome: AuthOutcome<P>)
    ensures SelectToken(authorization, cookie).None? <==> outcome == Respond(400, TokenNotFound)
    ensures SelectToken(authorization, cookie).Some? ==>
              var decoded := verify(SelectToken(authorization, cookie).value, JwtSecret(secretEnv));
              outcome == if decoded.Some? then Proceed(decoded.value) else Respond(401, InvalidToken)
  {
    var token := SelectToken(authorization, cookie);
    if token.None? {
      return Respond(400, TokenNotFound);
    }
    var decoded := verify(token.value, JwtSecret(secretEnv));
    if decoded.None? {
      return Respond(401, InvalidToken);
    }
    outcome := Proceed(decoded.value);
  }

  // ---------------------------------------------------------------------
  // Properties of the token choice
  // ---------------------------------------------------------------------

  /** A bearer header wins over the cookie; its token runs up to the next space. */
  lemma HeaderPreferred(t: string, rest: string, cookie: Option<string>)
    requires t != "" && ' ' !in t
    ensures SelectToken(Some(BearerPrefix + t), cookie) == Some(t)
    ensures SelectToken(Some(BearerPrefix + t + " " + rest), cookie) == Some(t)
  {
    WholeTokenChosen(t, cookie);
    FirstFieldChosen(t, rest, cookie);
  }

  lemma WholeTokenChosen(t: string, cookie: Option<string>)
    requires t != "" && ' ' !in t
    ensures SelectToken(Some(BearerPrefix + t), cookie) == Some(t)
  {
    var h := BearerPrefix + t;
    assert h == "Bearer" + [' '] + t;
    SplitAfterWord("Bearer", t, ' ');
    SplitWithoutSeparator(t, ' ');
    assert StartsWith(h, BearerPrefix);
  }

  lemma FirstFieldChosen(t: string, rest: string, cookie: Option<string>)
    requires t != "" && ' ' !in t
    ensures SelectToken(Some(BearerPrefix + t + " " + rest), cookie) == Some(t)
  {
    var h := BearerPrefix + t + " " + rest;
    assert h == "Bearer" + [' '] + (t + [' '] + rest);
    SplitAfterWord("Bearer", t + [' '] + rest, ' ');
    SplitAfterWord(t, rest, ' ');
    assert h[..7] == BearerPrefix;
  }

  /** An empty second field ("Bearer " alone, or two spaces after the prefix) falls back to the cookie. */
  lemma EmptyFieldFallsBack(rest: string, cookie: Option<string>)
    ensures SelectToken(Some(BearerPrefix), cookie) == SelectToken(None, cookie)
    ensures SelectToken(Some(BearerPrefix + " " + rest), cookie) == SelectToken(None, cookie)
  {
    PrefixAloneFallsBack(cookie);
    DoubleSpaceFallsBack(rest, cookie);
  }

  lemma PrefixAloneFallsBack(cookie: Option<string>)
    ensures SelectToken(Some(BearerPrefix), cookie) == SelectToken(None, cookie)
  {
    assert BearerPrefix == "Bearer" + [' '] + [];
    SplitAfterWord("Bearer", [], ' ');
  }

  lemma DoubleSpaceFallsBack(rest: string, cookie: Option<string>)
    ensures SelectToken(Some(BearerPrefix + " " + rest), cookie) == SelectToken(None, cookie)
  {
    var h := BearerPrefix + " " + rest;
    assert h == "Bearer" + [' '] + ([] + [' '] + rest);
    SplitAfterWord("Bearer", [] + [' '] + rest, ' ');
    SplitAfterWord([], rest, ' ');
    assert h[..7] == BearerPrefix;
  }

  /** A header with any other prefix is ignored. */
  lemma OtherPrefixIgnored(h: string, cookie: Option<string>)
    requires !StartsWith(h, BearerPrefix)
    ensures SelectToken(Some(h), cookie) == SelectToken(None, cookie)
  {
  }

  /** The prefix test is case-sensitive and names one scheme only. */
  lemma OtherSchemesIgnored(cookie: Option<string>)
    ensures SelectToken(Some("bearer abc"), cookie) == SelectToken(None, cookie)
    ensures SelectToken(Some("Token abc"), cookie) == SelectToken(None, cookie)
  {
    assert "bearer abc"[0] != BearerPrefix[0];
    assert "Token abc"[0] != BearerPrefix[0];
  }

  /** Without a usable header the cookie decides: a non-empty cookie is the token, anything else is no token. */
  lemma CookieFallback(cookie: Option<string>)
    ensures cookie.Some? && cookie.value != "" ==> SelectToken(None, cookie) == cookie
    ensures cookie.None? || cookie.value == "" ==> SelectToken(None, cookie) == None
  {
  }
}
