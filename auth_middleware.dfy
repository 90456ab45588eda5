/**
 * `authMiddleware` (src/middlewares/auth.middleware.ts): read the bearer
 * token from the Authorization header, verify it, insist that it is an
 * access token, attach the decoded payload to the request and call `next`.
 * Every failure is handed to `next(error)` rather than thrown.
 */
module Authentication {
  import opened Wrappers
  import opened Constants
  import opened HttpErrors
  import opened JsStrings
  import opened Jwt

  const BEARER := "Bearer "
  const NO_TOKEN_PROVIDED := "No token provided"
  const INVALID_TOKEN_TYPE := "Invalid token type"

  /**
   * The parts of an Express request the authentication code reads and
   * writes: the Authorization header and the body's `refresh_token` as
   * received, and the three slots the middlewares fill in.
   */
  class Request {
    const authorization: Option<string>
    const refreshTokenField: Option<string>
    var user: Option<DecodedToken>
    var accessTokenDecoded: Option<DecodedToken>
    var refreshTokenDecoded: Option<DecodedToken>

    constructor(authorization: Option<string>, refreshTokenField: Option<string>)
      ensures this.authorization == authorization && this.refreshTokenField == refreshTokenField
      ensures user == None && accessTokenDecoded == None && refreshTokenDecoded == None
    {
      this.authorization := authorization;
      this.refreshTokenField := refreshTokenField;
      user := None;
      accessTokenDecoded := None;
      refreshTokenDecoded := None;
    }
  }

  /** How a middleware hands the request on: `next()` or `next(error)`. */
  datatype NextCall = Continue | Forward(error: AppError)

  /**
   * The token of a header `Bearer <token>`: the header minus its first seven
   * characters.  A missing header, the empty header or one without the
   * prefix has none.
   */
  function BearerToken(header: Option<string>): (t: Option<string>)
    ensures t.Some? <==> header.Some? && StartsWith(header.value, BEARER)
    ensures t.Some? ==> BEARER + t.value == header.value
  {
    if header.None? || header.value == [] || !StartsWith(header.value, BEARER) then None
    else
      assert header.value == header.value[..7] + header.value[7..];
      Some(header.value[7..])
  }

  /** Reading back the header built from a token gives that token. */
  lemma BearerRoundTrip(token: string)
    ensures BearerToken(Some(BEARER + token)) == Some(token)
  {
    assert (BEARER + token)[..|BEARER|] == BEARER;
  }

  /**
   * What the middleware concludes from a header: the decoded payload when
   * the header carries a bearer token that verifies as an access token,
   * otherwise the error it forwards.
   */
  function Authenticate(header: Option<string>, verify: string -> VerifyOutcome): (r: Result<DecodedToken, AppError>)
    ensures BearerToken(header).None? ==> r == Failure(Raise(UNAUTHORIZED, NO_TOKEN_PROVIDED))
    ensures BearerToken(header).Some? && verify(BearerToken(header).value).Rejected? ==>
      r == VerifyToken(verify, BearerToken(header).value)
    ensures r.Success? <==>
      && BearerToken(header).Some?
      && verify(BearerToken(header).value).Verified?
      && verify(BearerToken(header).value).decoded.tokenType == Some(AccessToken)
    ensures r.Success? ==> r.value == verify(BearerToken(header).value).decoded
    ensures (BearerToken(header).Some? && verify(BearerToken(header).value).Verified?
             && verify(BearerToken(header).value).decoded.tokenType != Some(AccessToken)) ==>
      r == Failure(Raise(UNAUTHORIZED, INVALID_TOKEN_TYPE))
  {
    var token := BearerToken(header);
    if token.None? then Failure(Raise(UNAUTHORIZED, NO_TOKEN_PROVIDED))
    else
      var decoded := VerifyToken(verify, token.value);
      if decoded.Failure? then Failure(decoded.error)
      else if decoded.value.tokenType != Some(AccessToken) then Failure(Raise(UNAUTHORIZED, INVALID_TOKEN_TYPE))
      else Success(decoded.value)
  }

  /**
   * A refresh token, even a valid one, does not authenticate a request:
   * sent as a bearer token it is refused as the wrong type.
   */
  lemma RefreshTokenRefused(header: Option<string>, verify: string -> VerifyOutcome)
    requires BearerToken(header).Some?
    requires verify(BearerToken(header).value).Verified?
    requires verify(BearerToken(header).value).decoded.tokenType == Some(RefreshToken)
    ensures Authenticate(header, verify) == Failure(Raise(UNAUTHORIZED, INVALID_TOKEN_TYPE))
  {
  }

  /** Every refusal is a 401. */
  lemma RefusalsAreUnauthorized(header: Option<string>, verify: string -> VerifyOutcome)
    ensures Authenticate(header, verify).Failure? ==>
      && Authenticate(header, verify).error.Http?
      && Authenticate(header, verify).error.exception.status == UNAUTHORIZED
  {
  }

  /**
   * `authMiddleware(req, res, next)`: on success `req.user` holds the
   * decoded payload and `next()` is called; on failure `req.user` is left
   * alone and the error goes to `next(error)`.
   */
  method AuthMiddleware(req: Request, verify: string -> VerifyOutcome) returns (next: NextCall)
    modifies req
    ensures next.Continue? <==> Authenticate(req.authorization, verify).Success?
    ensures next.Continue? ==> req.user == Some(Authenticate(req.authorization, verify).value)
    ensures next.Forward? ==> next.error == Authenticate(req.authorization, verify).error && req.user == old(req.user)
    ensures req.accessTokenDecoded == old(req.accessTokenDecoded)
    ensures req.refreshTokenDecoded == old(req.refreshTokenDecoded)
  {
    var header := req.authorization;
    if header.None? || !StartsWith(header.value, BEARER) {
      return Forward(Raise(UNAUTHORIZED, NO_TOKEN_PROVIDED));
    }
    var token := header.value[7..];
    var decoded := VerifyToken(verify, token);
    if decoded.Failure? {
      return Forward(decoded.error);
    }
    if decoded.value.tokenType != Some(AccessToken) {
      return Forward(Raise(UNAUTHORIZED, INVALID_TOKEN_TYPE));
    }
    req.user := Some(decoded.value);
    next := Continue;
  }
}
