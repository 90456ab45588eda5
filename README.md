# Refresh-token sessions of nodejs-typescript, modelled in Dafny

This project models the authentication core of the nodejs-typescript API
server:

- **the refresh-session collection** (`RefreshTokenModel`): a MongoDB
  collection of `{user_id, token, created_at, expires_at}` records with a
  unique index on `token`;
- **the session service** (`UserService`): login and registration open a
  session, `refreshToken` rotates one while keeping its absolute deadline,
  and `logout` and `logoutAll` end sessions;
- **token minting and verification** (`JWTUtils`);
- **request gatekeeping**: the bearer-token middleware and the
  access/refresh token validators;
- **the body validators** for create, update and login, with the email
  regular expression written as a hand-coded recognizer;
- **the two error handlers** that turn exceptions into HTTP responses;
- **the `HttpException`/`EntityError` values** and the small `sum` helper.

The collection is the class `RefreshTokens.RefreshTokenModel`. It holds a
`seq` of records in insertion order. The MongoDB filter documents are a
`Query` datatype, and `find`, `findOne`, `countDocuments`, `deleteOne` and
`deleteMany` are functions over the sequence. `Valid()` is the unique token
index.

The service is the class `UserServices.UserService`, which owns the store.

- Its `RefreshToken` method is proved equal to a pure function `RefreshSpec`.
- The lemma `RotationPreservesDeadline` proves the protocol's headline
  promise over any chain of rotations: the session a client ends up holding
  has the owner and the deadline of the session it started from.
- The lemma `RotationLive` proves that such chains do happen: while every
  request names a user, comes before the deadline and signs a token that is
  not already stored, every rotation is granted.

Everything outside the program's own code is a parameter:

- `sign` stands for `jwt.sign` with the secret and the clock of the moment;
- `verify` and `decode` stand for `jwt.verify` and `jwt.decode`;
- `findByEmail` is the user lookup;
- `passwordMatches` is `bcrypt.compare`;
- `verifyAccess` and `verifyRefresh` are the validators' verifiers;
- `now` is the current time in milliseconds.

Files:

| file | module | models |
|---|---|---|
| wrappers.dfy | `Wrappers` | Option and Result |
| constants.dfy | `Constants` | status codes, message strings, `UserStatus`, `TokenType` |
| http_exception.dfy | `HttpErrors` | src/core/http-exception.ts and the errors an operation can throw |
| sum.dfy | `Sum` | src/utils/sum.ts |
| js_strings.dfy | `JsStrings` | the JavaScript string operations the code relies on |
| jwt.dfy | `Jwt` | src/utils/jwt.ts |
| refresh_token_model.dfy | `RefreshTokens` | src/models/refresh-token.model.ts |
| user_service.dfy | `UserServices` | src/services/user.service.ts (session part) |
| auth_middleware.dfy | `Authentication` | src/middlewares/auth.middleware.ts |
| auth_validation.dfy | `AuthValidation` | src/validations/auth.validation.ts |
| user_validation.dfy | `UserValidation` | src/validations/user.validation.ts |
| error_middleware.dfy | `ErrorHandling` | src/middlewares/error.middleware.ts |
| core_error_middleware.dfy | `CoreErrorHandling` | src/core/error-middleware.ts |

## Model

| member | source | states |
|---|---|---|
| HttpErrors.NewHttpException | src/core/http-exception.ts:9-13 | the exception holds exactly the given status, message and error_info |
| HttpErrors.NewEntityError | src/core/http-exception.ts:27-30 | status is always 422; an omitted message becomes "User data validation failed"; the errors map is kept as given; no error_info |
| HttpErrors.Raise | src/middlewares/auth.middleware.ts:23 | the positional `new HttpException(status, message)` is an HttpException with that status and message and no error_info |
| Sum.Sum | src/utils/sum.ts:1-6 | fails with Error "Invalid input: null value" exactly when a or b is null; otherwise returns a + b |
| Sum.SumSymmetric | src/utils/sum.ts:5 | swapping a and b does not change the outcome |
| JsStrings.RemoveFirst | src/services/user.service.ts:20 | `replace('d', '')` removes only the first 'd', and leaves a string without one unchanged |
| JsStrings.TrimEmptyIffBlank | src/validations/user.validation.ts:11 | `trim()` yields the empty string exactly when every character is JavaScript white space |
| Jwt.AccessClaims | src/utils/jwt.ts:17-29 | the access token's claims carry the identity's userId and email, type AccessToken, and the access lifetime unless one is given |
| Jwt.RefreshClaims | src/utils/jwt.ts:34-45 | the refresh token's claims carry the identity, type RefreshToken, and the separate refresh lifetime unless one is given |
| Jwt.GenerateAccessToken | src/utils/jwt.ts:17-29 | the access token is the signature of the access claims |
| Jwt.GenerateRefreshToken | src/utils/jwt.ts:34-45 | the refresh token is the signature of the refresh claims |
| Jwt.GenerateTokens | src/utils/jwt.ts:50-58 | the access token is signed from the identity's userId and email tagged AccessToken with the access lifetime; the refresh token from the same userId and email tagged RefreshToken with the refresh lifetime |
| Jwt.GenerateTokensSharePayload | src/utils/jwt.ts:50-58 | the two tokens are signed from the same identity with different tags, so under an injective signer they differ |
| Jwt.VerifyFailureMessage | src/utils/jwt.ts:67-83 | TokenExpiredError gives "Token expired", JsonWebTokenError gives "Invalid token", any other error gives "Token verification failed" |
| Jwt.VerifyToken | src/utils/jwt.ts:63-85 | a verified token is returned as decoded, whatever its type; a rejection becomes a 401 HttpException whose message is `VerifyFailureMessage` of the error name the verifier reports |
| Jwt.DecodeToken | src/utils/jwt.ts:90-96 | never fails; returns the payload exactly when `jwt.decode` yields one, and null when it yields nothing or throws |
| RefreshTokens.Find | src/models/refresh-token.model.ts:87-90 | the result holds exactly the stored records that match the filter, and is no longer than the collection |
| RefreshTokens.FindOne | src/models/refresh-token.model.ts:80-82 | a result is a stored record that matches; null exactly when no record matches |
| RefreshTokens.CountDocuments | src/models/refresh-token.model.ts:152-155 | the count is at most the collection size, and is zero exactly when no record matches |
| RefreshTokens.DeleteMany | src/models/refresh-token.model.ts:132-147 | exactly the non-matching records remain, and the collection shrinks by the count of matches |
| RefreshTokens.DeleteOne | src/models/refresh-token.model.ts:110-127 | with no match the collection is unchanged; otherwise exactly the record `findOne` finds is removed (multiset difference), and nothing is added |
| RefreshTokens.UniqueTokenMember | src/models/refresh-token.model.ts:47 | under the unique index, two stored records with the same token are the same record |
| RefreshTokens.DeleteManyKeepsUnique | src/models/refresh-token.model.ts:132-147 | a bulk delete keeps the token index unique |
| RefreshTokens.DeleteOneKeepsUnique | src/models/refresh-token.model.ts:110-127 | a single delete keeps the token index unique |
| RefreshTokens.AppendKeepsUnique | src/models/refresh-token.model.ts:67-75 | inserting a record whose token is not yet stored keeps the token index unique |
| RefreshTokens.CountIsFindSize | src/models/refresh-token.model.ts:152-155 | `countByUserId` equals the size of `findByUserId`, for any filter |
| RefreshTokens.FindOneIsFirstOfFind | src/models/refresh-token.model.ts:80-82 | `findOne` returns the first record `find` returns, or null when `find` returns nothing |
| RefreshTokens.DeleteOneOfPinnedToken | src/models/refresh-token.model.ts:110-127 | under the unique index, deleting one record matching a filter that names the token removes every match |
| RefreshTokens.NothingMatchesAfterPinnedHit | src/models/refresh-token.model.ts:47 | once the first record matches a filter that names the token, no later record matches it |
| RefreshTokens.NoMatchNoDelete | src/models/refresh-token.model.ts:132-147 | a bulk delete that matches nothing changes nothing |
| RefreshTokens.ScopedDeleteSparesOtherOwner | src/models/refresh-token.model.ts:118-127 | a token stored for another owner is not found by the user-and-token filter and is not deleted |
| RefreshTokens.SweepKeepsLiveSessions | src/models/refresh-token.model.ts:142-147 | after the expiry sweep every record expires at or after now; a session is live (in the sense of `isValid`, lines 95-105) after the sweep exactly when it was live before; a record expiring exactly now is kept by the sweep but is not valid |
| RefreshTokens.DeleteManyIdempotent | src/models/refresh-token.model.ts:132-137 | after a bulk delete nothing matches, and repeating it changes nothing |
| RefreshTokens.RefreshTokenModel.Create | src/models/refresh-token.model.ts:67-75 | a new token is appended with `created_at = now` and the given fields, leaving existing records untouched; a duplicate token fails with the duplicate-key error and changes nothing |
| RefreshTokens.RefreshTokenModel.FindByToken | src/models/refresh-token.model.ts:80-82 | returns `findOne({token})` |
| RefreshTokens.RefreshTokenModel.FindByUserId | src/models/refresh-token.model.ts:87-90 | returns exactly the records of the user |
| RefreshTokens.RefreshTokenModel.IsValid | src/models/refresh-token.model.ts:95-105 | true exactly when some record of that user with that token expires strictly after now |
| RefreshTokens.RefreshTokenModel.DeleteByToken | src/models/refresh-token.model.ts:110-113 | removes the record with that token, and nothing else; true exactly when one was removed |
| RefreshTokens.RefreshTokenModel.DeleteByUserAndToken | src/models/refresh-token.model.ts:118-127 | removes only a record matching both owner and token; true exactly when one was removed |
| RefreshTokens.RefreshTokenModel.DeleteAllByUserId | src/models/refresh-token.model.ts:132-137 | removes every record of the user and no other, and returns how many went |
| RefreshTokens.RefreshTokenModel.DeleteExpired | src/models/refresh-token.model.ts:142-147 | removes exactly the records with `expires_at < now`, and returns how many went |
| RefreshTokens.RefreshTokenModel.CountByUserId | src/models/refresh-token.model.ts:152-155 | returns `countDocuments({user_id})` |
| RefreshTokens.RefreshTokenModel.GetUserIdFromToken | src/models/refresh-token.model.ts:160-163 | null exactly when `findByToken` finds nothing; otherwise the owner of the record it finds |
| UserServices.Number | src/services/user.service.ts:21 | `Number()` of the day string is defined exactly when it is a run of decimal digits |
| UserServices.NumberOfDecimalString | src/services/user.service.ts:21 | `Number()` reads back the decimal rendering of any day count |
| UserServices.RefreshDays | src/services/user.service.ts:20-21 | the day count is defined exactly when the setting minus its first 'd' is a run of decimal digits; a setting without a 'd' is read as a plain number |
| UserServices.RefreshDaysOfDaySetting | src/services/user.service.ts:18-23 | a lifetime setting "<n>d" is read as n days |
| UserServices.CheckCredentials | src/services/user.service.ts:174-197 | unknown email gives 401 INVALID_USER_CREDENTIALS; an account that is not Active gives 401 ACCOUNT_NOT_ACTIVE; a wrong password gives 401 INVALID_USER_CREDENTIALS; success exactly when all three checks pass, returning the found account |
| UserServices.NoAccountEnumeration | src/services/user.service.ts:176-197 | for an active account, a wrong password and an unknown email give the same failure |
| UserServices.StatusCheckedBeforePassword | src/services/user.service.ts:183-197 | for an account that is not Active the verdict is ACCOUNT_NOT_ACTIVE whatever the password or the comparison |
| UserServices.WrapCreateError | src/services/user.service.ts:107-113 | an HttpException passes through unchanged; any other error becomes 400 "Failed to create user: " + its message |
| UserServices.RefreshRefusals | src/services/user.service.ts:218-254 | no userId gives 401 USER_NOT_FOUND with nothing changed; an unknown token gives 401 REFRESH_TOKEN_NOT_FOUND with nothing changed; a record with `expires_at <= now` gives 401 REFRESH_TOKEN_EXPIRED with that record already deleted; no refusal changes more than the deletion of the presented record |
| UserServices.RefreshSucceeds | src/services/user.service.ts:243-285 | success removes the old record and appends one with its owner and its deadline, under a refresh token signed for `floor(remaining/1000)` seconds, and returns an access token with the access lifetime |
| UserServices.RefreshNeverExtendsDeadlines | src/services/user.service.ts:243-280 | if every session ends by some bound before a refresh, every session still ends by it afterwards |
| UserServices.RefreshStep | src/services/user.service.ts:243-280 | a refresh keeps the token index unique, and a successful one files the new token under the old owner and the old deadline |
| UserServices.ReplaceKeepsUnique | src/services/user.service.ts:257-280 | inserting the replacement session keeps the token index unique; after a success the new token finds exactly the new record, with the old owner and the old deadline, and the old deadline lay after now |
| UserServices.RotationKeepsSession | src/services/user.service.ts:257-280 | over any chain of rotations, the token the client ends up holding finds a session with the starting owner and deadline |
| UserServices.RotationBeforeDeadline | src/services/user.service.ts:247-255 | a chain of rotations that ends holding a token was made entirely before the starting session's deadline |
| UserServices.RefreshGranted | src/services/user.service.ts:226-285 | a refresh succeeds whenever the payload names a user, the presented session exists and its deadline is still ahead, and the newly signed refresh token is not already stored |
| UserServices.RefreshDuplicateRefused | src/services/user.service.ts:243-280 | when the newly signed refresh token is already stored, the refresh is refused with the duplicate-key error of `create`, and the presented session has already been deleted |
| UserServices.ReplaceRefusesStoredToken | src/services/user.service.ts:257-280 | after the delete, with the deadline still ahead, a rotated refresh token that is already stored is refused with the duplicate-key error and the collection is left as it is |
| UserServices.RotationLiveFrom | src/services/user.service.ts:226-285 | when the collection holds only records of a base collection and the held session, and every request names a user, comes before the deadline and signs tokens new to the base, every rotation of the chain succeeds |
| UserServices.RotationLive | src/services/user.service.ts:226-285 | a client whose every request names a user, comes before the starting session's deadline and signs tokens not already stored still holds a token at the end of the chain |
| UserServices.RotationPreservesDeadline | src/services/user.service.ts:257-280 | over any chain of rotations, the session the client ends up holding has the starting owner and deadline, and every rotation happened before that deadline |
| UserServices.UserService.GetExpiresAt | src/services/user.service.ts:18-23 | the deadline is now plus the configured number of days in milliseconds; for a configured service that number is the one the lifetime setting reads as |
| UserServices.UserService.OpenSession | src/services/user.service.ts:91-105 | mints the pair for the user and appends exactly one record: the user, the returned refresh token, created now, expiring in the configured days; a duplicate token fails and changes nothing |
| UserServices.UserService.CreateUser | src/services/user.service.ts:76-114 | a failed insert is reported through `WrapCreateError` with the store unchanged; after a successful insert, when the new refresh token is not stored the result is the response without the digest plus both tokens and exactly one session is added; otherwise the duplicate-key error becomes a 400 and nothing changes |
| UserServices.UserService.LoginUser | src/services/user.service.ts:166-216 | a failed credential check returns that check's error and adds no session; after a passing check, when the new refresh token is not stored the result is the account without its digest plus both tokens and exactly one session expiring in the configured days is added; otherwise the duplicate-key error with nothing changed |
| UserServices.UserService.RefreshToken | src/services/user.service.ts:218-286 | the verdict and the new collection are those of `RefreshSpec`, whose outcomes `RefreshRefusals` and `RefreshSucceeds` state |
| UserServices.UserService.ReplaceStoredSession | src/services/user.service.ts:245-285 | after the delete, the verdict and the new collection are those of `ReplaceSession` |
| UserServices.UserService.Logout | src/services/user.service.ts:291-299 | succeeds exactly when a record matches both user and token, and then removes only that one; otherwise 401 REFRESH_TOKEN_NOT_FOUND and nothing changes |
| UserServices.UserService.LogoutAll | src/services/user.service.ts:304-306 | never fails, and removes every record of the user and no other (so a second call removes nothing, by `DeleteManyIdempotent`) |
| Authentication.BearerToken | src/middlewares/auth.middleware.ts:20-26 | a token exactly when the header is present and starts with "Bearer "; then "Bearer " followed by the token is the header |
| Authentication.BearerRoundTrip | src/middlewares/auth.middleware.ts:26 | reading the header built from a token gives back that token |
| Authentication.Authenticate | src/middlewares/auth.middleware.ts:17-43 | no bearer token gives 401 "No token provided"; a verification failure is the verifier's error; a verified token of another type gives 401 "Invalid token type"; success exactly for a verified access token, whose payload it returns |
| Authentication.RefreshTokenRefused | src/middlewares/auth.middleware.ts:32-34 | a verified refresh token sent as a bearer token is refused as the wrong type |
| Authentication.RefusalsAreUnauthorized | src/middlewares/auth.middleware.ts:17-43 | every refusal is an HttpException with status 401 |
| Authentication.AuthMiddleware | src/middlewares/auth.middleware.ts:17-43 | calls `next()` exactly when authentication succeeds, with `req.user` set to the payload; otherwise calls `next(error)` with the refusal and leaves `req.user` alone |
| AuthValidation.AccessTokenCheck | src/validations/auth.validation.ts:18-33 | a value without the "Bearer " prefix gives 401 INVALID_ACCESS_TOKEN; otherwise the result is the access verifier's on the value minus its first seven characters |
| AuthValidation.RefreshTokenCheck | src/validations/auth.validation.ts:47-59 | a missing or all-white-space value gives 401 REFRESH_TOKEN_REQUIRED; otherwise the result is the refresh verifier's on the untrimmed value |
| AuthValidation.AccessCheckMatchesMiddleware | src/validations/auth.validation.ts:20-25 | the access rule and the middleware refuse the same headers for want of a bearer token |
| AuthValidation.AccessTokenOption | src/validations/auth.validation.ts:18-33 | answers true exactly when the check succeeds, storing the payload in `access_token_decoded`; a failure changes nothing on the request |
| AuthValidation.RefreshTokenOption | src/validations/auth.validation.ts:47-59 | answers true exactly when the check succeeds, storing the payload in `refresh_token_decoded`; a failure changes nothing on the request |
| UserValidation.IsEmail | src/validations/user.validation.ts:24-25 | the regular-expression test accepts exactly the strings of `^[a-zA-Z0-9._%+-]+@[a-zA-Z0-9.-]+\.[a-zA-Z]{2,}$` |
| UserValidation.EmailRecognizerCorrect | src/validations/user.validation.ts:24 | the hand-coded recognizer accepts exactly the strings of `^[a-zA-Z0-9._%+-]+@[a-zA-Z0-9.-]+\.[a-zA-Z]{2,}$` |
| UserValidation.EmailRecognizerSound | src/validations/user.validation.ts:24 | every string the recognizer accepts splits as local "@" domain "." tld |
| UserValidation.EmailRecognizerComplete | src/validations/user.validation.ts:24 | every such split is accepted by the recognizer |
| UserValidation.NameCheck | src/validations/user.validation.ts:11-17 | (and the same rule at lines 49-54 of the update validator) passes exactly a string name that is not all white space and has at most 100 code units; a missing, non-string or blank name gives the caller's "required" message, a long one "Name must not exceed 100 characters" |
| UserValidation.CreateEmailCheck | src/validations/user.validation.ts:20-27 | passes exactly an email of the regular expression; a missing, non-string or empty one gives "Email is required", any other mismatch "Invalid email format" |
| UserValidation.UpdateEmailCheck | src/validations/user.validation.ts:58-66 | passes an absent email or one of the regular expression; a non-string gives "Email must be a string", a mismatching string "Invalid email format" |
| UserValidation.PasswordCheck | src/validations/user.validation.ts:30-36 | passes exactly a string password of at least 6 code units; a missing, non-string or empty one gives "Password is required", a short one "Password must be at least 6 characters" |
| UserValidation.PhoneCheck | src/validations/user.validation.ts:69-76 | passes an absent phone number or a string of 10 to 15 code units; a non-string gives "Phone number must be a string", a wrong length "Phone number must be between 10 and 15 characters" |
| UserValidation.GenderCheck | src/validations/user.validation.ts:79-84 | passes an absent gender or exactly "male", "female" or "other"; anything else gives "Gender must be male, female, or other" |
| UserValidation.FirstFailure | src/validations/user.validation.ts:44-87 | a run of throwing checks passes exactly when every check passes; otherwise it throws a 400 with the message of the first check that fails |
| UserValidation.UpdateChecks | src/validations/user.validation.ts:47-84 | the update rules in source order: a sent name is checked by the name rule with "Name must be a non-empty string" as its missing message, then email, phone number and gender |
| UserValidation.ValidateCreateUser | src/validations/user.validation.ts:7-39 | accepts exactly a non-blank name of at most 100 code units, an email of the regular expression, and a password of at least 6 code units; checks name, email, password in that order and reports the first broken rule with its message and 400 |
| UserValidation.ValidateUpdateUser | src/validations/user.validation.ts:44-87 | absent fields are skipped; accepts exactly when a present name and email meet the create rules, a present phone number has 10 to 15 code units, and a present gender is male, female or other; reports the first broken rule |
| UserValidation.ValidateLogin | src/validations/user.validation.ts:92-104 | accepts exactly when email and password are non-empty strings; email is checked first |
| UserValidation.UpdateAppliesCreateRules | src/validations/user.validation.ts:48-66 | with a good password, create accepts a name and email exactly when an update sending only them does |
| UserValidation.EmptyUpdateAccepted | src/validations/user.validation.ts:44-87 | an update that sends no field passes |
| UserValidation.CreateAcceptedLoginAccepted | src/validations/user.validation.ts:92-104 | whatever registration accepts, login accepts too |
| ErrorHandling.OmitStatus | src/middlewares/error.middleware.ts:13 | the body is the exception minus its status: the message, the error_info, and `errors` exactly for an EntityError |
| ErrorHandling.ErrorMiddleware | src/middlewares/error.middleware.ts:11-51 | an HttpException answers with its own status and its status-less body; MongoServerError 11000 gives 409 "<first key> already exists"; MongoServerError 121 gives 400 "Validation failed: " + message; ValidationError gives 400 with its message; anything else gives 500 with its message, or "Internal server error" when that is empty; the first branch that applies wins |
| ErrorHandling.NativeErrorsAnsweredPlainly | src/middlewares/error.middleware.ts:17-50 | an error that is not an HttpException gets `{status: 'error', message}` with 409, 400 or 500, and a non-empty message unless a ValidationError carried an empty one |
| ErrorHandling.DuplicateTokenIsConflict | src/middlewares/error.middleware.ts:21-27 | a duplicate refresh token from `create` is answered 409 "token already exists" |
| ErrorHandling.RaisedExceptionAnswered | src/middlewares/error.middleware.ts:12-14 | an exception raised with a status and a message is answered with that status and that message only |
| CoreErrorHandling.CoreErrorMiddleware | src/core/error-middleware.ts:4-10 | an HttpException answers with its own status and `{status: 'error', message}`; anything else answers 500 "Internal Server Error" |
| CoreErrorHandling.NativeMessagesHidden | src/core/error-middleware.ts:9 | all errors that are not HttpExceptions get the same response, so their messages never reach the client |
| CoreErrorHandling.HandlersAgreeOnExceptions | src/core/error-middleware.ts:5-7 | for an HttpException the two handlers answer with the same status and the same message |

## Left out

- MongoDB I/O, the driver and index creation are not modelled. The unique index on `token` is the invariant `Valid()`. The TTL index, which deletes expired records in the background, is not modelled; only the explicit `deleteExpired` is. The driver's E11000 duplicate-key message is shortened to "E11000 duplicate key error"; the real one also names the collection, the index and the duplicate value, and that text reaches the client in `createUser`'s 400 "Failed to create user: ...".
- Concurrency is not modelled. The service finds the record and then deletes it, ignoring the delete's result. So two concurrent refreshes of one token can both succeed. The sequential model proves nothing about single use under races.
- Time is an integer `now` in milliseconds. `setDate(getDate() + n)` is `n * 86400000`, with daylight-saving shifts ignored. One operation reads one `now`: the source reads the clock several times within one operation (for login and registration, src/services/user.service.ts:19 for the deadline and src/models/refresh-token.model.ts:70 for `created_at`; for a refresh, src/services/user.service.ts:246 and then src/models/refresh-token.model.ts:70), and the model ignores the milliseconds that may pass between those readings.
- JavaScript numbers are modelled as unbounded integers, in `sum` and in the remaining-time arithmetic. `Math.floor(remaining / 1000)` is integer division, which agrees because the value is positive there.
- UserServices.Number: `Number()` is modelled only on strings of decimal digits (the empty string is 0). Signs, surrounding white space, decimals, exponents and hexadecimal are not modelled. Settings such as "-1d", " 7d" or "7.5d" give the source a valid date (`setDate` truncates the day count), but the service constructor's requires excludes them; only settings that `Number()` reads as NaN (such as "15m" or "7days") give the source an invalid date.
- User ids are plain strings. The `ObjectId` conversions in the model's queries are treated as the identity. `new ObjectId(userId)` throws on an id that is not 24 hexadecimal digits (src/models/refresh-token.model.ts:88, 96, 119, 133, 153); the model has no such failure path.
- The profile operations of the service are not modelled: listing users, reading one, updating, deleting, and the email and username existence checks. Neither is the user collection. Login takes the lookup as the parameter `findByEmail`. Registration takes the outcome of hashing and inserting the profile as a value.
- bcrypt and the JWT cryptography are parameters. Signing, verifying and decoding are the functions `sign`, `verify` and `decode`. `sign` includes the secret and the issue time.
- Jwt.GenerateAccessToken and Jwt.GenerateRefreshToken follow the `{payload, expiresIn}` interface of src/types/jwt.types.ts:15-20, which is the one the service calls. The bare-payload form in jwt.ts is its special case with no `expiresIn`.
- `verifyAccessToken` and `verifyRefreshToken` do not exist in jwt.ts. The validators take them as the parameters `verifyAccess` and `verifyRefresh`.
- The express-validator wrapper (src/utils/validate.ts, `checkSchema`) is not part of this model; only the custom option functions are. A `refresh_token` body value that is not a string is not modelled.
- src/constants/http-status.ts and src/constants/enum.ts are not part of this model. Status codes are the conventional numbers. `UserStatus` and `TokenType` are datatypes.
- `AUTH_MESSAGES.INVALID_USER_CREDENTIALS` and `ACCOUNT_NOT_ACTIVE` are not defined in src/constants/messages.ts. They are modelled as two distinct messages.
- HttpErrors.Raise: user.validation.ts and auth.middleware.ts call `new HttpException(status, message)` positionally, but the constructor takes one object. The model gives these calls the evidently intended `(status, message)`.
- UserServices.UserService.RefreshToken: the controller calls `refreshToken` without the decoded payload (src/controllers/user.controller.ts:90). The service method takes `userData` as an explicit optional parameter and is modelled as written.
- A refresh record's `_id` and its optional device fields (device info, IP address, user agent) are not modelled.
- The HTTP response plumbing is not modelled: `res.status().json()`, routing and server start-up. The handlers return a `(status, body)` value.
