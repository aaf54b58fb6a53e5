/** The request gates of internal/http/middleware.go and the status-capturing
    response writer. A gate either answers the request itself (`Deny`) or
    calls the next handler exactly once with a possibly extended context
    (`Forward`). JWT verification is a function the caller supplies; the user
    lookup is the in-memory user registry's `GetByID`. */
module Middleware {

  import opened Optional
  import GoText
  import opened AuthStore
  import opened RequestContext
  import opened HttpStatus

  datatype Gate = Deny(status: int, message: string) | Forward(ctx: Context)

  /** The only API key SimpleAuth accepts. */
  const APIKey := "secret"

  /** The fixed user SimpleAuth attaches, under the HTTP package's key. */
  const Alice := HttpUser(1, "Alice")

  /** `SimpleAuth`: `apiKey` is the `X-API-Key` header ("" when absent). */
  function SimpleAuth(apiKey: string, ctx: Context): (g: Gate)
    ensures g.Forward? <==> apiKey == APIKey
    ensures g.Deny? ==> g == Deny(StatusUnauthorized, "unauthorized")
    ensures g.Forward? ==> g.ctx == ctx.(httpUser := Some(Alice))
  {
    if apiKey != APIKey then Deny(StatusUnauthorized, "unauthorized")
    else Forward(ctx.(httpUser := Some(Alice)))
  }

  /** The cases of the source's SimpleAuth test: no key and a wrong key are
      refused, "secret" is let through. */
  lemma SimpleAuthCases(ctx: Context)
    ensures SimpleAuth("", ctx).Deny? && SimpleAuth("wrong", ctx).Deny?
    ensures SimpleAuth("secret", ctx).Forward?
  {
    assert "wrong" != APIKey by { assert "wrong"[0] != APIKey[0]; }
  }

  /** How the Authorization header is read. */
  datatype HeaderParse = Missing | Malformed | Bearer(token: string)

  /** `JWTAuth`'s header check: empty is missing; otherwise splitting on " "
      must give exactly two parts, the first exactly "Bearer". */
  function ParseAuthorization(h: string): HeaderParse {
    if h == "" then Missing
    else
      var parts := GoText.Split(h, ' ');
      if |parts| != 2 || parts[0] != "Bearer" then Malformed else Bearer(parts[1])
  }

  /** The header is accepted with token `t` exactly when it is "Bearer", one
      space and `t`, and `t` contains no space. This is stricter than the
      Bearer scheme of section 2.1 of RFC 6750: the scheme name is matched
      case-sensitively and exactly one space may separate it from the token. */
  lemma BearerIff(h: string, t: string)
    ensures ParseAuthorization(h) == Bearer(t) <==> h == "Bearer " + t && ' ' !in t
  {
    if h == "Bearer " + t && ' ' !in t {
      assert h == "Bearer" + [' '] + t;
      GoText.SplitAtFirst("Bearer", t, ' ');
      GoText.SplitNoSeparator(t, ' ');
    }
    if ParseAuthorization(h) == Bearer(t) {
      var parts := GoText.Split(h, ' ');
      assert GoText.Join(parts, ' ') == parts[0] + [' '] + parts[1];
    }
  }

  /** The three outcomes of the header check, in terms of the header alone. */
  lemma ParseAuthorizationCases(h: string)
    ensures ParseAuthorization(h) == Missing <==> h == ""
    ensures ParseAuthorization(h).Bearer? <==> |h| >= 7 && h[..7] == "Bearer " && ' ' !in h[7..]
    ensures ParseAuthorization(h).Bearer? ==> ParseAuthorization(h).token == h[7..]
  {
    if |h| >= 7 && h[..7] == "Bearer " {
      assert h == "Bearer " + h[7..];
      BearerIff(h, h[7..]);
    }
    var p := ParseAuthorization(h);
    if p.Bearer? {
      BearerIff(h, p.token);
      assert h[7..] == p.token;
    }
  }

  /** A second word after the token is refused. */
  lemma TwoTokensRefused()
    ensures ParseAuthorization("Bearer a b") == Malformed
  {
    ParseAuthorizationCases("Bearer a b");
    assert "Bearer a b"[7..][1] == ' ';
  }

  /** The scheme name is matched case-sensitively. */
  lemma LowerCaseSchemeRefused()
    ensures ParseAuthorization("bearer x") == Malformed
  {
    ParseAuthorizationCases("bearer x");
    assert "bearer x"[..7][0] != "Bearer "[0];
  }

  /** Exactly one space may follow the scheme name. */
  lemma DoubleSpaceRefused()
    ensures ParseAuthorization("Bearer  x") == Malformed
  {
    ParseAuthorizationCases("Bearer  x");
    assert "Bearer  x"[7..][0] == ' ';
  }

  /** `JWTAuth`: `verify` maps a token to the user id of its claims, or
      nothing when the token is invalid. */
  function JWTAuth(header: string, ctx: Context, verify: string -> Option<int>, users: Registry): (g: Gate)
    ensures header == "" ==> g == Deny(StatusUnauthorized, "missing authorization header")
    ensures ParseAuthorization(header) == Malformed ==> g == Deny(StatusUnauthorized, "invalid authorization header format")
    ensures forall t :: ParseAuthorization(header) == Bearer(t) && verify(t).None? ==>
              g == Deny(StatusUnauthorized, "invalid token")
    ensures forall t :: ParseAuthorization(header) == Bearer(t) && verify(t).Some? && verify(t).value !in users.users ==>
              g == Deny(StatusUnauthorized, "user not found")
    ensures forall t :: ParseAuthorization(header) == Bearer(t) && verify(t).Some? && verify(t).value in users.users ==>
              g == Forward(ctx.(authUser := Some(users.users[verify(t).value])))
  {
    match ParseAuthorization(header)
    case Missing => Deny(StatusUnauthorized, "missing authorization header")
    case Malformed => Deny(StatusUnauthorized, "invalid authorization header format")
    case Bearer(t) =>
      match verify(t)
      case None => Deny(StatusUnauthorized, "invalid token")
      case Some(uid) =>
        match ById(users, uid)
        case Refused(_) => Deny(StatusUnauthorized, "user not found")
        case Found(u) => Forward(ctx.(authUser := Some(u)))
  }

  /** JWTAuth lets a request through exactly when the header is "Bearer " and
      a space-free token that verifies to the id of a registered user; it then
      attaches that user and nothing else. Every refusal is a 401, and an
      empty header is reported as missing. */
  lemma JWTAuthForwardIff(header: string, ctx: Context, verify: string -> Option<int>, users: Registry)
    ensures var g := JWTAuth(header, ctx, verify, users);
      && (g.Forward? <==>
            && |header| >= 7 && header[..7] == "Bearer " && ' ' !in header[7..]
            && verify(header[7..]).Some? && verify(header[7..]).value in users.users)
      && (g.Forward? ==> g.ctx == ctx.(authUser := Some(users.users[verify(header[7..]).value])))
      && (g.Deny? ==> g.status == StatusUnauthorized)
      && (header == "" ==> g == Deny(StatusUnauthorized, "missing authorization header"))
  {
    ParseAuthorizationCases(header);
  }

  /** The status a capturing writer reports after the given `WriteHeader`
      calls: the last one, or 200 when there was none. */
  function Reported(written: seq<int>): int {
    if written == [] then StatusOK else written[|written| - 1]
  }

  /** `responseWriter`: wraps the real writer and remembers the status. */
  class ResponseWriter {
    var status: int
    /** Every status passed on to the wrapped writer, in order. */
    var forwarded: seq<int>

    ghost predicate Valid()
      reads this
    {
      status == Reported(forwarded)
    }

    /** As RequestLogger and MetricsMiddleware create it: status 200. */
    constructor ()
      ensures Valid() && forwarded == [] && status == StatusOK
    {
      status := StatusOK;
      forwarded := [];
    }

    method WriteHeader(code: int)
      requires Valid()
      modifies this
      ensures Valid()
      ensures forwarded == old(forwarded) + [code]
      ensures status == code
    {
      status := code;
      forwarded := forwarded + [code];
    }
  }
}
