/**
 * Token minting and verification (src/utils/jwt.ts).  Signing is the
 * parameter `sign`, standing for `jwt.sign` with the process secret at the
 * moment of the call; `jwt.verify` and `jwt.decode` are the parameters
 * `verify` and `decode`.  The minting functions follow the
 * `{payload, expiresIn?}` interface of src/types/jwt.types.ts, which is the
 * one the service calls.
 */
module Jwt {
  import opened Wrappers
  import opened Constants
  import opened HttpErrors

  /** `Omit<TokenPayload, 'type'>`: whom a token is for. */
  datatype Identity = Identity(userId: string, email: string)

  /** The payload handed to `jwt.sign`. */
  datatype TokenPayload = TokenPayload(userId: string, email: string, tokenType: TokenType)

  /**
   * What `jwt.verify` / `jwt.decode` give back: the payload (whose `type`
   * may be missing in a token this code did not mint) plus `iat` and `exp`.
   * A missing or empty `userId` is the empty string.
   */
  datatype DecodedToken = DecodedToken(userId: string, email: string, tokenType: Option<TokenType>, iat: int, exp: int)

  /** The `expiresIn` sign option: a time span such as "15m" or "7d", or a number of seconds. */
  datatype ExpiresIn = Span(text: string) | Seconds(count: int)

  /** Everything `jwt.sign` is given besides the secret. */
  datatype Claims = Claims(payload: TokenPayload, expiresIn: ExpiresIn)

  /** The two lifetime settings (jwtAccessTokenExpiresIn, jwtRefreshTokenExpiresIn). */
  datatype JwtConfig = JwtConfig(accessExpiresIn: string, refreshExpiresIn: string)

  /** `SignAccessTokenParams` / `SignRefreshTokenParams`. */
  datatype SignParams = SignParams(payload: Identity, expiresIn: Option<ExpiresIn>)

  datatype TokenPair = TokenPair(accessToken: string, refreshToken: string)

  /** The outcome of `jwt.verify`: the decoded token, or the name of the error it threw. */
  datatype VerifyOutcome = Verified(decoded: DecodedToken) | Rejected(errorName: string)

  /** The outcome of `jwt.decode`: a payload, `null`, or an exception. */
  datatype DecodeOutcome = Decoded(decoded: DecodedToken) | NoPayload | Throws

  /** The claims `generateAccessToken` signs: the identity tagged AccessToken, with the access lifetime unless one is given. */
  function AccessClaims(cfg: JwtConfig, p: SignParams): (c: Claims)
    ensures c.payload.tokenType == AccessToken
    ensures c.payload.userId == p.payload.userId && c.payload.email == p.payload.email
    ensures p.expiresIn.None? ==> c.expiresIn == Span(cfg.accessExpiresIn)
    ensures p.expiresIn.Some? ==> c.expiresIn == p.expiresIn.value
  {
    Claims(TokenPayload(p.payload.userId, p.payload.email, AccessToken), p.expiresIn.GetOr(Span(cfg.accessExpiresIn)))
  }

  /** The claims `generateRefreshToken` signs: the identity tagged RefreshToken, with the refresh lifetime unless one is given. */
  function RefreshClaims(cfg: JwtConfig, p: SignParams): (c: Claims)
    ensures c.payload.tokenType == RefreshToken
    ensures c.payload.userId == p.payload.userId && c.payload.email == p.payload.email
    ensures p.expiresIn.None? ==> c.expiresIn == Span(cfg.refreshExpiresIn)
    ensures p.expiresIn.Some? ==> c.expiresIn == p.expiresIn.value
  {
    Claims(TokenPayload(p.payload.userId, p.payload.email, RefreshToken), p.expiresIn.GetOr(Span(cfg.refreshExpiresIn)))
  }

  /** `generateAccessToken`: the access claims, signed. */
  function GenerateAccessToken(cfg: JwtConfig, sign: Claims -> string, p: SignParams): (t: string)
    ensures t == sign(AccessClaims(cfg, p))
  {
    sign(AccessClaims(cfg, p))
  }

  /** `generateRefreshToken`: the refresh claims, signed. */
  function GenerateRefreshToken(cfg: JwtConfig, sign: Claims -> string, p: SignParams): (t: string)
    ensures t == sign(RefreshClaims(cfg, p))
  {
    sign(RefreshClaims(cfg, p))
  }

  /** `generateTokens(payload)`: both tokens from the same identity, each with its configured lifetime. */
  function GenerateTokens(cfg: JwtConfig, sign: Claims -> string, id: Identity): (pair: TokenPair)
    ensures pair.accessToken == sign(Claims(TokenPayload(id.userId, id.email, AccessToken), Span(cfg.accessExpiresIn)))
    ensures pair.refreshToken == sign(Claims(TokenPayload(id.userId, id.email, RefreshToken), Span(cfg.refreshExpiresIn)))
  {
    TokenPair(GenerateAccessToken(cfg, sign, SignParams(id, None)),
              GenerateRefreshToken(cfg, sign, SignParams(id, None)))
  }

  /** An injective signer never maps two different claim sets to one token. */
  ghost predicate Injective(sign: Claims -> string) {
    forall c1, c2 :: sign(c1) == sign(c2) ==> c1 == c2
  }

  /**
   * The pair is minted from one identity with two different tags, so under
   * an injective signer the access token and the refresh token differ.
   */
  lemma GenerateTokensSharePayload(cfg: JwtConfig, sign: Claims -> string, id: Identity)
    ensures Injective(sign) ==> GenerateTokens(cfg, sign, id).accessToken != GenerateTokens(cfg, sign, id).refreshToken
  {
  }

  /** The 401 message `verifyToken` gives for the name of the error `jwt.verify` threw. */
  function VerifyFailureMessage(errorName: string): (m: string)
    ensures errorName == TOKEN_EXPIRED_ERROR ==> m == "Token expired"
    ensures errorName == JSON_WEB_TOKEN_ERROR ==> m == "Invalid token"
    ensures errorName != TOKEN_EXPIRED_ERROR && errorName != JSON_WEB_TOKEN_ERROR ==> m == "Token verification failed"
  {
    if errorName == TOKEN_EXPIRED_ERROR then "Token expired"
    else if errorName == JSON_WEB_TOKEN_ERROR then "Invalid token"
    else "Token verification failed"
  }

  /**
   * `verifyToken`: the decoded token as `jwt.verify` gives it, whatever its
   * `type`; every failure becomes a 401 HttpException.
   */
  function VerifyToken(verify: string -> VerifyOutcome, token: string): (r: Result<DecodedToken, AppError>)
    ensures verify(token).Verified? ==> r == Success(verify(token).decoded)
    ensures verify(token).Rejected? ==> r.Failure? && r.error.Http? && r.error.exception.HttpException?
    ensures verify(token).Rejected? ==> r.error.exception.status == UNAUTHORIZED
    ensures verify(token).Rejected? ==>
      r.error.exception.message in {"Token expired", "Invalid token", "Token verification failed"}
    ensures verify(token).Rejected? ==> r == Failure(Raise(UNAUTHORIZED, VerifyFailureMessage(verify(token).errorName)))
  {
    match verify(token)
    case Verified(d) => Success(d)
    case Rejected(name) => Failure(Raise(UNAUTHORIZED, VerifyFailureMessage(name)))
  }

  /** `decodeToken`: never throws; `null` when `jwt.decode` yields nothing or throws. */
  function DecodeToken(decode: string -> DecodeOutcome, token: string): (r: Option<DecodedToken>)
    ensures r.Some? <==> decode(token).Decoded?
    ensures r.Some? ==> r.value == decode(token).decoded
  {
    match decode(token)
    case Decoded(d) => Some(d)
    case NoPayload => None
    case Throws => None
  }
}
