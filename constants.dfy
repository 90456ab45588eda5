/**
 * Status codes, message texts and enumerations the core refers to.
 * The message texts are those of src/constants/messages.ts.  The two
 * authentication messages the service uses but that file does not define
 * are given texts equal to their constant names, so they stay distinct.
 */
module Constants {

  // HTTP status codes (the HTTP_STATUS table itself is not part of this model).
  const BAD_REQUEST: int := 400
  const UNAUTHORIZED: int := 401
  const CONFLICT: int := 409
  const UNPROCESSABLE_ENTITY: int := 422
  const INTERNAL_SERVER_ERROR: int := 500

  // USER_MESSAGES
  const USER_VALIDATION_FAILED: string := "User data validation failed"

  // AUTH_MESSAGES
  const USER_NOT_FOUND: string := "User not found"
  const INVALID_USER_CREDENTIALS: string := "INVALID_USER_CREDENTIALS"
  const ACCOUNT_NOT_ACTIVE: string := "ACCOUNT_NOT_ACTIVE"

  // TOKEN_ERROR_NAMES
  const TOKEN_EXPIRED_ERROR: string := "TokenExpiredError"
  const JSON_WEB_TOKEN_ERROR: string := "JsonWebTokenError"

  // TOKEN_MESSAGES
  const INVALID_ACCESS_TOKEN: string := "Invalid access token"
  const REFRESH_TOKEN_REQUIRED: string := "Refresh token is required"
  const REFRESH_TOKEN_EXPIRED: string := "Refresh token has expired"
  const REFRESH_TOKEN_NOT_FOUND: string := "Refresh token not found"

  /** UserStatus of src/types/user.types.ts (Unverified = 0 … Active = 3). */
  datatype UserStatus = Unverified | Verified | Banned | Active

  /** The `type` claim every minted token carries. */
  datatype TokenType = AccessToken | RefreshToken
}
