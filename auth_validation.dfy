/**
 * The custom option functions of `accessTokenValidator` and
 * `refreshTokenValidator` (src/validations/auth.validation.ts).  The
 * verifiers they call, `verifyAccessToken` and `verifyRefreshToken`, are
 * parameters: a verifier either yields the decoded token or throws (here
 * `Failure`).
 */
module AuthValidation {
  import opened Wrappers
  import opened Constants
  import opened HttpErrors
  import opened JsStrings
  import opened Jwt
  import opened Authentication

  /**
   * The access-token rule on an Authorization value: without the bearer
   * prefix it is a 401 INVALID_ACCESS_TOKEN, otherwise whatever the access
   * verifier makes of the token after the prefix.
   */
  function AccessTokenCheck(value: Option<string>, verifyAccess: string -> Result<DecodedToken, AppError>)
    : (r: Result<DecodedToken, AppError>)
    ensures BearerToken(value).None? ==> r == Failure(Raise(UNAUTHORIZED, INVALID_ACCESS_TOKEN))
    ensures BearerToken(value).Some? ==> r == verifyAccess(BearerToken(value).value)
  {
    if value.None? || value.value == [] || !StartsWith(value.value, BEARER) then
      Failure(Raise(UNAUTHORIZED, INVALID_ACCESS_TOKEN))
    else verifyAccess(value.value[7..])
  }

  /**
   * The refresh-token rule on the body's `refresh_token`: a missing or
   * all-white-space value is a 401 REFRESH_TOKEN_REQUIRED, otherwise the
   * value itself, untrimmed, goes to the refresh verifier.
   */
  function RefreshTokenCheck(value: Option<string>, verifyRefresh: string -> Result<DecodedToken, AppError>)
    : (r: Result<DecodedToken, AppError>)
    ensures value.None? || Blank(value.value) ==> r == Failure(Raise(UNAUTHORIZED, REFRESH_TOKEN_REQUIRED))
    ensures value.Some? && !Blank(value.value) ==> r == verifyRefresh(value.value)
  {
    if value.None? then Failure(Raise(UNAUTHORIZED, REFRESH_TOKEN_REQUIRED))
    else
      TrimEmptyIffBlank(value.value);
      if Trim(value.value) == [] then Failure(Raise(UNAUTHORIZED, REFRESH_TOKEN_REQUIRED))
      else verifyRefresh(value.value)
  }

  /**
   * The access rule and the authentication middleware refuse the same
   * headers for want of a bearer token, each with its own message.
   */
  lemma AccessCheckMatchesMiddleware(value: Option<string>, verifyAccess: string -> Result<DecodedToken, AppError>,
                                     verify: string -> VerifyOutcome)
    ensures BearerToken(value).None? <==> Authenticate(value, verify) == Failure(Raise(UNAUTHORIZED, NO_TOKEN_PROVIDED))
    ensures BearerToken(value).None? ==> AccessTokenCheck(value, verifyAccess) == Failure(Raise(UNAUTHORIZED, INVALID_ACCESS_TOKEN))
  {
  }

  /**
   * The access option: on success the decoded token is stored in
   * `access_token_decoded` and the option answers true; a failure changes
   * nothing on the request.
   */
  method AccessTokenOption(req: Request, verifyAccess: string -> Result<DecodedToken, AppError>)
    returns (r: Result<bool, AppError>)
    modifies req
    ensures r.Success? <==> AccessTokenCheck(req.authorization, verifyAccess).Success?
    ensures r.Success? ==> r.value && req.accessTokenDecoded == Some(AccessTokenCheck(req.authorization, verifyAccess).value)
    ensures r.Failure? ==>
      r.error == AccessTokenCheck(req.authorization, verifyAccess).error && req.accessTokenDecoded == old(req.accessTokenDecoded)
    ensures req.user == old(req.user) && req.refreshTokenDecoded == old(req.refreshTokenDecoded)
  {
    var value := req.authorization;
    if value.None? || value.value == [] || !StartsWith(value.value, BEARER) {
      return Failure(Raise(UNAUTHORIZED, INVALID_ACCESS_TOKEN));
    }
    var token := value.value[7..];
    var decoded := verifyAccess(token);
    if decoded.Failure? {
      return Failure(decoded.error);
    }
    req.accessTokenDecoded := Some(decoded.value);
    r := Success(true);
  }

  /**
   * The refresh option: on success the decoded token is stored in
   * `refresh_token_decoded` and the option answers true; a failure changes
   * nothing on the request.
   */
  method RefreshTokenOption(req: Request, verifyRefresh: string -> Result<DecodedToken, AppError>)
    returns (r: Result<bool, AppError>)
    modifies req
    ensures r.Success? <==> RefreshTokenCheck(req.refreshTokenField, verifyRefresh).Success?
    ensures r.Success? ==> r.value && req.refreshTokenDecoded == Some(RefreshTokenCheck(req.refreshTokenField, verifyRefresh).value)
    ensures r.Failure? ==>
      r.error == RefreshTokenCheck(req.refreshTokenField, verifyRefresh).error && req.refreshTokenDecoded == old(req.refreshTokenDecoded)
    ensures req.user == old(req.user) && req.accessTokenDecoded == old(req.accessTokenDecoded)
  {
    var value := req.refreshTokenField;
    if value.None? || Trim(value.value) == [] {
      return Failure(Raise(UNAUTHORIZED, REFRESH_TOKEN_REQUIRED));
    }
    var decoded := verifyRefresh(value.value);
    if decoded.Failure? {
      return Failure(decoded.error);
    }
    req.refreshTokenDecoded := Some(decoded.value);
    r := Success(true);
  }
}
