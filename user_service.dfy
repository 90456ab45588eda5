/**
 * The session part of src/services/user.service.ts: login and registration
 * open a session, `refreshToken` rotates one, `logout` and `logoutAll` end
 * them.  The user directory, bcrypt and the signing library are parameters:
 * `findByEmail` is UserModel.findByEmail, `passwordMatches` is
 * bcrypt.compare, `sign` is jwt.sign at the time of the call, and the outcome
 * of hashing and inserting a new profile is handed to CreateUser as a value.
 */
module UserServices {
  import opened Wrappers
  import opened Constants
  import opened HttpErrors
  import opened JsStrings
  import opened Jwt
  import opened RefreshTokens

  /** One calendar day in milliseconds (`setDate(getDate() + n)` with daylight saving ignored). */
  const DAY_MS: int := 86400000

  // ---------- the refresh lifetime setting ----------

  predicate IsDigit(c: char) {
    '0' <= c <= '9'
  }

  predicate AllDigits(s: string) {
    forall i :: 0 <= i < |s| ==> IsDigit(s[i])
  }

  function DigitsValue(s: string): nat
    requires AllDigits(s)
  {
    if s == [] then 0 else DigitsValue(s[..|s| - 1]) * 10 + (s[|s| - 1] as int - '0' as int)
  }

  /**
   * `Number(s)` on the strings a day count can be: a run of decimal digits
   * (the empty string is 0); anything else is NaN, here None.
   */
  function Number(s: string): (r: Option<nat>)
    ensures r.Some? <==> AllDigits(s)
  {
    if AllDigits(s) then Some(DigitsValue(s)) else None
  }

  /** The day count `getExpiresAt` reads from the refresh lifetime setting: the setting with its first 'd' removed, as a number. */
  function RefreshDays(setting: string): (r: Option<nat>)
    ensures r.Some? <==> AllDigits(RemoveFirst(setting, 'd'))
    ensures 'd' !in setting ==> r == Number(setting)
  {
    Number(RemoveFirst(setting, 'd'))
  }

  /** The character of a decimal digit. */
  function DigitChar(d: nat): (c: char)
    requires d < 10
    ensures IsDigit(c) && c as int - '0' as int == d
  {
    (48 + d) as char
  }

  /** The decimal rendering of a day count. */
  function DecimalString(n: nat): (s: string)
    ensures |s| >= 1 && AllDigits(s)
  {
    if n < 10 then [DigitChar(n)]
    else DecimalString(n / 10) + [DigitChar(n % 10)]
  }

  lemma {:induction false} NumberOfDecimalString(n: nat)
    ensures Number(DecimalString(n)) == Some(n)
  {
    var s := DecimalString(n);
    if n < 10 {
      assert s[..0] == [];
      assert DigitsValue(s) == DigitsValue(s[..0]) * 10 + (s[0] as int - '0' as int);
    } else {
      NumberOfDecimalString(n / 10);
      assert s[..|s| - 1] == DecimalString(n / 10);
      assert DigitsValue(s) == DigitsValue(DecimalString(n / 10)) * 10 + n % 10;
    }
  }

  /** A setting written "<n>d" is read back as n days. */
  lemma RefreshDaysOfDaySetting(n: nat)
    ensures RefreshDays(DecimalString(n) + "d") == Some(n)
  {
    var ds := DecimalString(n);
    var s := ds + "d";
    var i := IndexOf(s, 'd');
    assert s[|ds|] == 'd';
    assert 'd' in s;
    assert s[..i] == ds && s[i + 1..] == [];
    assert RemoveFirst(s, 'd') == ds;
    NumberOfDecimalString(n);
  }

  // ---------- credentials ----------

  /** The user document as far as login needs it (UserModel.findByEmail). */
  datatype UserAccount = UserAccount(id: string, email: string, status: UserStatus, passwordDigest: string)

  /** `UserModel.toResponse`: the account without its password digest. */
  datatype UserProfile = UserProfile(id: string, email: string, status: UserStatus)

  function ToResponse(u: UserAccount): UserProfile {
    UserProfile(u.id, u.email, u.status)
  }

  datatype AuthResult = AuthResult(user: UserProfile, accessToken: string, refreshToken: string)

  /**
   * The checks `loginUser` makes before minting: unknown email, then account
   * status, then password.  An unknown email and a wrong password give the
   * same error; the status check comes before the password is looked at.
   */
  function CheckCredentials(found: Option<UserAccount>, password: string,
                            passwordMatches: (string, string) -> bool): (r: Result<UserAccount, AppError>)
    ensures found.None? ==> r == Failure(Raise(UNAUTHORIZED, INVALID_USER_CREDENTIALS))
    ensures found.Some? && found.value.status != Active ==> r == Failure(Raise(UNAUTHORIZED, ACCOUNT_NOT_ACTIVE))
    ensures found.Some? && found.value.status == Active && !passwordMatches(password, found.value.passwordDigest) ==>
      r == Failure(Raise(UNAUTHORIZED, INVALID_USER_CREDENTIALS))
    ensures r.Success? <==>
      found.Some? && found.value.status == Active && passwordMatches(password, found.value.passwordDigest)
    ensures r.Success? ==> r.value == found.value
  {
    if found.None? then Failure(Raise(UNAUTHORIZED, INVALID_USER_CREDENTIALS))
    else if found.value.status != Active then Failure(Raise(UNAUTHORIZED, ACCOUNT_NOT_ACTIVE))
    else if !passwordMatches(password, found.value.passwordDigest) then Failure(Raise(UNAUTHORIZED, INVALID_USER_CREDENTIALS))
    else Success(found.value)
  }

  /** Login cannot tell an unknown email from a wrong password for an active account. */
  lemma NoAccountEnumeration(u: UserAccount, password: string, passwordMatches: (string, string) -> bool)
    requires u.status == Active && !passwordMatches(password, u.passwordDigest)
    ensures CheckCredentials(Some(u), password, passwordMatches) == CheckCredentials(None, password, passwordMatches)
    ensures CheckCredentials(None, password, passwordMatches).Failure?
  {
  }

  /** For an account that is not active the verdict does not depend on the password at all. */
  lemma StatusCheckedBeforePassword(u: UserAccount, p1: string, p2: string, m1: (string, string) -> bool, m2: (string, string) -> bool)
    requires u.status != Active
    ensures CheckCredentials(Some(u), p1, m1) == CheckCredentials(Some(u), p2, m2)
    ensures CheckCredentials(Some(u), p1, m1) == Failure(Raise(UNAUTHORIZED, ACCOUNT_NOT_ACTIVE))
  {
  }

  /** The `catch` of `createUser`: an HttpException passes through, anything else becomes a 400. */
  function WrapCreateError(e: AppError): (r: AppError)
    ensures e.Http? ==> r == e
    ensures e.Native? ==> r == Raise(BAD_REQUEST, "Failed to create user: " + e.message)
  {
    if e.Http? then e else Raise(BAD_REQUEST, "Failed to create user: " + e.message)
  }

  // ---------- rotation ----------

  /** `Math.max(a, b)`. */
  function Max(a: int, b: int): int {
    if a >= b then a else b
  }

  /**
   * The effect of one `refreshToken(presented, userData)` call at `now` on the
   * collection `rs`: the verdict and the collection afterwards.
   */
  function RefreshSpec(rs: seq<RefreshRecord>, cfg: JwtConfig, presented: string,
                       userData: Option<DecodedToken>, now: int, sign: Claims -> string): (Result<TokenPair, AppError>, seq<RefreshRecord>)
  {
    if userData.None? || userData.value.userId == "" then
      (Failure(Raise(UNAUTHORIZED, USER_NOT_FOUND)), rs)
    else
      var found := FindOne(rs, ByToken(presented));
      if found.None? then (Failure(Raise(UNAUTHORIZED, REFRESH_TOKEN_NOT_FOUND)), rs)
      else ReplaceSession(DeleteOne(rs, ByToken(presented)), cfg, found.value,
                          Identity(userData.value.userId, userData.value.email), now, sign)
  }

  /**
   * The part of a refresh after the presented session `doc` has been found
   * and deleted (`afterDelete` is the collection at that point).
   */
  function ReplaceSession(afterDelete: seq<RefreshRecord>, cfg: JwtConfig, doc: RefreshRecord, id: Identity,
                          now: int, sign: Claims -> string): (Result<TokenPair, AppError>, seq<RefreshRecord>)
  {
    var remaining := Max(doc.expiresAt - now, 0);
    if remaining <= 0 then (Failure(Raise(UNAUTHORIZED, REFRESH_TOKEN_EXPIRED)), afterDelete)
    else
      var newRefresh := GenerateRefreshToken(cfg, sign, SignParams(id, Some(Seconds(remaining / 1000))));
      var newAccess := GenerateAccessToken(cfg, sign, SignParams(id, None));
      if FindOne(afterDelete, ByToken(newRefresh)).Some? then (Failure(DuplicateTokenError()), afterDelete)
      else (Success(TokenPair(newAccess, newRefresh)), afterDelete + [RefreshRecord(doc.userId, newRefresh, now, now + remaining)])
  }

  /**
   * The refusals of a refresh: without a decoded user, or for a token the
   * collection does not hold, it is refused and nothing changes; once the
   * deadline is reached it is refused and the old session is already gone.
   * A refused refresh changes nothing beyond deleting the presented session.
   */
  lemma RefreshRefusals(rs: seq<RefreshRecord>, cfg: JwtConfig, presented: string,
                        userData: Option<DecodedToken>, now: int, sign: Claims -> string)
    ensures var out := RefreshSpec(rs, cfg, presented, userData, now, sign);
      (userData.None? || userData.value.userId == "") ==>
        out == (Failure(Raise(UNAUTHORIZED, USER_NOT_FOUND)), rs)
    ensures var out := RefreshSpec(rs, cfg, presented, userData, now, sign);
      (userData.Some? && userData.value.userId != "" && FindOne(rs, ByToken(presented)).None?) ==>
        out == (Failure(Raise(UNAUTHORIZED, REFRESH_TOKEN_NOT_FOUND)), rs)
    ensures var out := RefreshSpec(rs, cfg, presented, userData, now, sign);
      (userData.Some? && userData.value.userId != "" && FindOne(rs, ByToken(presented)).Some?
        && FindOne(rs, ByToken(presented)).value.expiresAt <= now) ==>
        out == (Failure(Raise(UNAUTHORIZED, REFRESH_TOKEN_EXPIRED)), DeleteOne(rs, ByToken(presented)))
    ensures var out := RefreshSpec(rs, cfg, presented, userData, now, sign);
      out.0.Failure? ==> out.1 == rs || out.1 == DeleteOne(rs, ByToken(presented))
  {
  }

  /**
   * A successful refresh replaces the old session by one with the same owner
   * and the same deadline, filed under a refresh token signed to live exactly
   * as long as the old session had left, and returns a fresh access token.
   */
  lemma RefreshSucceeds(rs: seq<RefreshRecord>, cfg: JwtConfig, presented: string,
                        userData: Option<DecodedToken>, now: int, sign: Claims -> string)
    ensures var out := RefreshSpec(rs, cfg, presented, userData, now, sign);
      out.0.Success? ==>
        && userData.Some? && FindOne(rs, ByToken(presented)).Some?
        && var prev := FindOne(rs, ByToken(presented)).value;
        && now < prev.expiresAt
        && out.1 == DeleteOne(rs, ByToken(presented)) + [RefreshRecord(prev.userId, out.0.value.refreshToken, now, prev.expiresAt)]
        && out.0.value.refreshToken == sign(Claims(TokenPayload(userData.value.userId, userData.value.email, RefreshToken),
                                                   Seconds((prev.expiresAt - now) / 1000)))
        && out.0.value.accessToken == sign(Claims(TokenPayload(userData.value.userId, userData.value.email, AccessToken),
                                                  Span(cfg.accessExpiresIn)))
  {
  }

  /** Every session in `rs` ends no later than `bound`. */
  predicate AllExpireBy(rs: seq<RefreshRecord>, bound: int) {
    forall x :: x in rs ==> x.expiresAt <= bound
  }

  /** No refresh attempt, successful or not, creates a session that outlives the sessions already there. */
  lemma RefreshNeverExtendsDeadlines(rs: seq<RefreshRecord>, cfg: JwtConfig, presented: string,
                                     userData: Option<DecodedToken>, now: int, sign: Claims -> string, bound: int)
    requires AllExpireBy(rs, bound)
    ensures AllExpireBy(RefreshSpec(rs, cfg, presented, userData, now, sign).1, bound)
  {
    var out := RefreshSpec(rs, cfg, presented, userData, now, sign);
    RefreshRefusals(rs, cfg, presented, userData, now, sign);
    RefreshSucceeds(rs, cfg, presented, userData, now, sign);
    if out.0.Success? {
      var prev := FindOne(rs, ByToken(presented)).value;
      assert prev in rs;
      forall x | x in out.1 ensures x.expiresAt <= bound {
        if x !in DeleteOne(rs, ByToken(presented)) {
          assert x.expiresAt == prev.expiresAt;
        }
      }
    }
  }

  /**
   * Replacing a session keeps the token index unique; on success the new
   * token finds exactly the new session, which has the old owner and deadline.
   */
  lemma ReplaceKeepsUnique(afterDelete: seq<RefreshRecord>, cfg: JwtConfig, doc: RefreshRecord, id: Identity,
                           now: int, sign: Claims -> string)
    requires UniqueTokens(afterDelete)
    ensures UniqueTokens(ReplaceSession(afterDelete, cfg, doc, id, now, sign).1)
    ensures var out := ReplaceSession(afterDelete, cfg, doc, id, now, sign);
      out.0.Success? ==>
        && now < doc.expiresAt
        && FindOne(out.1, ByToken(out.0.value.refreshToken)) == Some(RefreshRecord(doc.userId, out.0.value.refreshToken, now, doc.expiresAt))
  {
    var out := ReplaceSession(afterDelete, cfg, doc, id, now, sign);
    if out.0.Success? {
      var x := RefreshRecord(doc.userId, out.0.value.refreshToken, now, doc.expiresAt);
      assert out.1 == afterDelete + [x];
      AppendKeepsUnique(afterDelete, x);
      assert x in out.1;
      var found := FindOne(out.1, ByToken(x.token));
      assert found.Some?;
      assert found.value in afterDelete + [x];
      assert found.value !in afterDelete;
    }
  }

  /** One successful refresh keeps the collection's token index unique and files the new token under the old owner and deadline. */
  lemma {:induction false} RefreshStep(rs: seq<RefreshRecord>, cfg: JwtConfig, presented: string,
                                       userData: Option<DecodedToken>, now: int, sign: Claims -> string)
    requires UniqueTokens(rs)
    ensures UniqueTokens(RefreshSpec(rs, cfg, presented, userData, now, sign).1)
    ensures var out := RefreshSpec(rs, cfg, presented, userData, now, sign);
      out.0.Success? ==>
        && FindOne(rs, ByToken(presented)).Some?
        && now < FindOne(rs, ByToken(presented)).value.expiresAt
        && FindOne(out.1, ByToken(out.0.value.refreshToken)).Some?
        && FindOne(out.1, ByToken(out.0.value.refreshToken)).value.userId == FindOne(rs, ByToken(presented)).value.userId
        && FindOne(out.1, ByToken(out.0.value.refreshToken)).value.expiresAt == FindOne(rs, ByToken(presented)).value.expiresAt
  {
    if userData.Some? && userData.value.userId != "" && FindOne(rs, ByToken(presented)).Some? {
      DeleteOneKeepsUnique(rs, ByToken(presented));
      ReplaceKeepsUnique(DeleteOne(rs, ByToken(presented)), cfg, FindOne(rs, ByToken(presented)).value,
                         Identity(userData.value.userId, userData.value.email), now, sign);
    }
  }

  /** One refresh request of a client: the decoded payload it carries, the time, and the signer at that time. */
  datatype RefreshRequest = RefreshRequest(userData: Option<DecodedToken>, now: int, sign: Claims -> string)

  /**
   * A client that keeps rotating: each request presents the refresh token
   * the previous one returned.  The result is the collection afterwards and
   * the refresh token the client ends up holding (None once a request failed).
   */
  function RefreshChain(rs: seq<RefreshRecord>, cfg: JwtConfig, token: string, reqs: seq<RefreshRequest>): (seq<RefreshRecord>, Option<string>)
    decreases |reqs|
  {
    if reqs == [] then (rs, Some(token))
    else
      var out := RefreshSpec(rs, cfg, token, reqs[0].userData, reqs[0].now, reqs[0].sign);
      if out.0.Failure? then (out.1, None)
      else RefreshChain(out.1, cfg, out.0.value.refreshToken, reqs[1..])
  }

  /** Along a chain of rotations the held token keeps naming a session of the starting owner and deadline. */
  lemma {:induction false} RotationKeepsSession(rs: seq<RefreshRecord>, cfg: JwtConfig, token: string,
                                                reqs: seq<RefreshRequest>, owner: string, deadline: int)
    requires UniqueTokens(rs)
    requires FindOne(rs, ByToken(token)).Some?
    requires FindOne(rs, ByToken(token)).value.userId == owner
    requires FindOne(rs, ByToken(token)).value.expiresAt == deadline
    ensures var (after, held) := RefreshChain(rs, cfg, token, reqs);
      held.Some? ==>
        && FindOne(after, ByToken(held.value)).Some?
        && FindOne(after, ByToken(held.value)).value.userId == owner
        && FindOne(after, ByToken(held.value)).value.expiresAt == deadline
    decreases |reqs|
  {
    if reqs != [] {
      var out := RefreshSpec(rs, cfg, token, reqs[0].userData, reqs[0].now, reqs[0].sign);
      RefreshStep(rs, cfg, token, reqs[0].userData, reqs[0].now, reqs[0].sign);
      if out.0.Success? {
        RotationKeepsSession(out.1, cfg, out.0.value.refreshToken, reqs[1..], owner, deadline);
      }
    }
  }

  /** A chain of rotations that ends holding a token was made entirely before the starting session's deadline. */
  lemma {:induction false} RotationBeforeDeadline(rs: seq<RefreshRecord>, cfg: JwtConfig, token: string,
                                                  reqs: seq<RefreshRequest>, deadline: int)
    requires UniqueTokens(rs)
    requires FindOne(rs, ByToken(token)).Some?
    requires FindOne(rs, ByToken(token)).value.expiresAt == deadline
    ensures RefreshChain(rs, cfg, token, reqs).1.Some? ==> forall i :: 0 <= i < |reqs| ==> reqs[i].now < deadline
    decreases |reqs|
  {
    if reqs != [] {
      var out := RefreshSpec(rs, cfg, token, reqs[0].userData, reqs[0].now, reqs[0].sign);
      RefreshStep(rs, cfg, token, reqs[0].userData, reqs[0].now, reqs[0].sign);
      if out.0.Success? {
        RotationBeforeDeadline(out.1, cfg, out.0.value.refreshToken, reqs[1..], deadline);
        if RefreshChain(rs, cfg, token, reqs).1.Some? {
          forall i | 1 <= i < |reqs| ensures reqs[i].now < deadline {
            assert reqs[i] == reqs[1..][i - 1];
          }
        }
      }
    }
  }

  /**
   * Rotation never extends the absolute deadline: however many rotations a
   * client makes, the session it ends up holding has the owner and the
   * deadline of the session it started from, and every rotation in the chain
   * happened before that deadline.
   */
  lemma RotationPreservesDeadline(rs: seq<RefreshRecord>, cfg: JwtConfig, token: string,
                                  reqs: seq<RefreshRequest>, owner: string, deadline: int)
    requires UniqueTokens(rs)
    requires FindOne(rs, ByToken(token)).Some?
    requires FindOne(rs, ByToken(token)).value.userId == owner
    requires FindOne(rs, ByToken(token)).value.expiresAt == deadline
    ensures var (after, held) := RefreshChain(rs, cfg, token, reqs);
      held.Some? ==>
        && FindOne(after, ByToken(held.value)).Some?
        && FindOne(after, ByToken(held.value)).value.userId == owner
        && FindOne(after, ByToken(held.value)).value.expiresAt == deadline
        && forall i :: 0 <= i < |reqs| ==> reqs[i].now < deadline
  {
    RotationKeepsSession(rs, cfg, token, reqs, owner, deadline);
    RotationBeforeDeadline(rs, cfg, token, reqs, deadline);
  }

  // ---------- liveness of rotation ----------

  /** The refresh token a rotation at `now` signs for the holder of `d` whose session ends at `deadline`. */
  function RotatedToken(cfg: JwtConfig, sign: Claims -> string, d: DecodedToken, now: int, deadline: int): string {
    GenerateRefreshToken(cfg, sign, SignParams(Identity(d.userId, d.email), Some(Seconds((deadline - now) / 1000))))
  }

  /**
   * A refresh is granted whenever nothing refuses it: the payload names a
   * user, the presented session exists and has not reached its deadline, and
   * the newly signed token is not already stored.
   */
  lemma RefreshGranted(rs: seq<RefreshRecord>, cfg: JwtConfig, presented: string,
                       userData: Option<DecodedToken>, now: int, sign: Claims -> string)
    requires userData.Some? && userData.value.userId != ""
    requires FindOne(rs, ByToken(presented)).Some?
    requires now < FindOne(rs, ByToken(presented)).value.expiresAt
    requires FindOne(DeleteOne(rs, ByToken(presented)),
                     ByToken(RotatedToken(cfg, sign, userData.value, now, FindOne(rs, ByToken(presented)).value.expiresAt))).None?
    ensures RefreshSpec(rs, cfg, presented, userData, now, sign).0.Success?
  {
  }

  /**
   * A refresh whose newly signed token is already stored is refused with the
   * duplicate-key error, and the presented session is already gone.
   */
  lemma RefreshDuplicateRefused(rs: seq<RefreshRecord>, cfg: JwtConfig, presented: string,
                                userData: Option<DecodedToken>, now: int, sign: Claims -> string)
    requires userData.Some? && userData.value.userId != ""
    requires FindOne(rs, ByToken(presented)).Some?
    requires now < FindOne(rs, ByToken(presented)).value.expiresAt
    requires FindOne(DeleteOne(rs, ByToken(presented)),
                     ByToken(RotatedToken(cfg, sign, userData.value, now, FindOne(rs, ByToken(presented)).value.expiresAt))).Some?
    ensures RefreshSpec(rs, cfg, presented, userData, now, sign) == (Failure(DuplicateTokenError()), DeleteOne(rs, ByToken(presented)))
  {
    ReplaceRefusesStoredToken(DeleteOne(rs, ByToken(presented)), cfg, FindOne(rs, ByToken(presented)).value,
                              Identity(userData.value.userId, userData.value.email), now, sign);
  }

  /** The step of RefreshDuplicateRefused after the delete: a rotated token that is already stored is refused. */
  lemma ReplaceRefusesStoredToken(afterDelete: seq<RefreshRecord>, cfg: JwtConfig, doc: RefreshRecord, id: Identity,
                                  now: int, sign: Claims -> string)
    requires now < doc.expiresAt
    requires FindOne(afterDelete, ByToken(GenerateRefreshToken(cfg, sign, SignParams(id, Some(Seconds((doc.expiresAt - now) / 1000)))))).Some?
    ensures ReplaceSession(afterDelete, cfg, doc, id, now, sign) == (Failure(DuplicateTokenError()), afterDelete)
  {
  }

  /** A signer none of whose tokens is stored in `base`. */
  ghost predicate FreshSigner(base: seq<RefreshRecord>, sign: Claims -> string) {
    forall c, x :: x in base ==> sign(c) != x.token
  }

  /** A request that nothing would refuse: it names a user, comes before `deadline`, and signs tokens new to `base`. */
  ghost predicate LiveRequest(req: RefreshRequest, base: seq<RefreshRecord>, deadline: int) {
    && req.userData.Some? && req.userData.value.userId != ""
    && req.now < deadline
    && FreshSigner(base, req.sign)
  }

  /**
   * The induction behind RotationLive: `rs` holds records of `base` and the
   * session of the held token; every request is live, so every rotation is
   * granted and the client still holds a token at the end.
   */
  lemma {:induction false} RotationLiveFrom(rs: seq<RefreshRecord>, base: seq<RefreshRecord>, cfg: JwtConfig, token: string,
                                            reqs: seq<RefreshRequest>, deadline: int)
    requires UniqueTokens(rs)
    requires FindOne(rs, ByToken(token)).Some? && FindOne(rs, ByToken(token)).value.expiresAt == deadline
    requires forall x :: x in rs ==> x in base || x.token == token
    requires forall i :: 0 <= i < |reqs| ==> LiveRequest(reqs[i], base, deadline)
    ensures RefreshChain(rs, cfg, token, reqs).1.Some?
    decreases |reqs|
  {
    if reqs != [] {
      var req := reqs[0];
      assert LiveRequest(req, base, deadline);
      var afterDelete := DeleteOne(rs, ByToken(token));
      DeleteOneOfPinnedToken(rs, ByToken(token));
      var minted := RotatedToken(cfg, req.sign, req.userData.value, req.now, deadline);
      forall x | x in afterDelete ensures x.token != minted {
        assert x in rs && x.token != token;
      }
      RefreshGranted(rs, cfg, token, req.userData, req.now, req.sign);
      var out := RefreshSpec(rs, cfg, token, req.userData, req.now, req.sign);
      RefreshStep(rs, cfg, token, req.userData, req.now, req.sign);
      RefreshSucceeds(rs, cfg, token, req.userData, req.now, req.sign);
      forall x | x in out.1 ensures x in base || x.token == out.0.value.refreshToken {
        if x in afterDelete {
          assert x in rs && x.token != token;
        }
      }
      forall i | 0 <= i < |reqs[1..]| ensures LiveRequest(reqs[1..][i], base, deadline) {
        assert reqs[1..][i] == reqs[i + 1];
      }
      RotationLiveFrom(out.1, base, cfg, out.0.value.refreshToken, reqs[1..], deadline);
    }
  }

  /**
   * Rotation really does keep a session alive up to its deadline: a client
   * whose every request names a user, comes before the starting session's
   * deadline and signs tokens not already stored ends the chain still
   * holding a token (so, by RotationPreservesDeadline, one with the same
   * owner and deadline).
   */
  lemma RotationLive(rs: seq<RefreshRecord>, cfg: JwtConfig, token: string, reqs: seq<RefreshRequest>)
    requires UniqueTokens(rs)
    requires FindOne(rs, ByToken(token)).Some?
    requires forall i :: 0 <= i < |reqs| ==> LiveRequest(reqs[i], rs, FindOne(rs, ByToken(token)).value.expiresAt)
    ensures RefreshChain(rs, cfg, token, reqs).1.Some?
  {
    RotationLiveFrom(rs, rs, cfg, token, reqs, FindOne(rs, ByToken(token)).value.expiresAt);
  }

  // ---------- the service ----------

  /** UserService: the session operations over the refresh-session collection. */
  class UserService {
    const store: RefreshTokenModel
    const config: JwtConfig
    /** The day count read from the refresh lifetime setting when the service is built. */
    const refreshDays: nat

    ghost predicate Valid()
      reads this, store
    {
      store.Valid()
    }

    /** The day count is the one the lifetime setting reads as; every service the constructor builds is configured. */
    ghost predicate Configured() {
      RefreshDays(config.refreshExpiresIn) == Some(refreshDays)
    }

    constructor (store: RefreshTokenModel, config: JwtConfig)
      requires store.Valid() && RefreshDays(config.refreshExpiresIn).Some?
      ensures Valid() && this.store == store && this.config == config
      ensures Configured()
    {
      this.store := store;
      this.config := config;
      this.refreshDays := RefreshDays(config.refreshExpiresIn).value;
    }

    /** `getExpiresAt`: `now` moved forward by the configured number of days. */
    method GetExpiresAt(now: int) returns (expiresAt: int)
      requires Valid()
      ensures expiresAt == now + refreshDays * DAY_MS
      ensures Configured() ==> expiresAt == now + RefreshDays(config.refreshExpiresIn).value * DAY_MS
      ensures expiresAt >= now
    {
      expiresAt := now;
      expiresAt := expiresAt + refreshDays * DAY_MS;
    }

    /**
     * The shared tail of `loginUser` and `createUser`: mint the pair for the
     * user and record the refresh token as a new session.
     */
    method OpenSession(user: UserAccount, now: int, sign: Claims -> string) returns (r: Result<AuthResult, AppError>)
      requires Valid()
      modifies store
      ensures Valid()
      ensures var pair := GenerateTokens(config, sign, Identity(user.id, user.email));
        FindOne(old(store.records), ByToken(pair.refreshToken)).Some? ==>
          r == Failure(DuplicateTokenError()) && store.records == old(store.records)
      ensures var pair := GenerateTokens(config, sign, Identity(user.id, user.email));
        FindOne(old(store.records), ByToken(pair.refreshToken)).None? ==>
          && r == Success(AuthResult(ToResponse(user), pair.accessToken, pair.refreshToken))
          && store.records == old(store.records) + [RefreshRecord(user.id, pair.refreshToken, now, now + refreshDays * DAY_MS)]
    {
      var tokens := GenerateTokens(config, sign, Identity(user.id, user.email));
      var expiresAt := GetExpiresAt(now);
      var created := store.Create(user.id, tokens.refreshToken, expiresAt, now);
      if created.Failure? {
        return Failure(created.error);
      }
      r := Success(AuthResult(ToResponse(user), tokens.accessToken, tokens.refreshToken));
    }

    /**
     * `createUser`, from the point where the profile has been hashed and
     * inserted (`created` is that outcome): open a session; any failure that
     * is not an HttpException is reported as a 400.
     */
    method CreateUser(created: Result<UserAccount, AppError>, now: int, sign: Claims -> string) returns (r: Result<AuthResult, AppError>)
      requires Valid()
      modifies store
      ensures Valid()
      ensures created.Failure? ==> r == Failure(WrapCreateError(created.error)) && store.records == old(store.records)
      ensures created.Success? ==>
        var pair := GenerateTokens(config, sign, Identity(created.value.id, created.value.email));
        FindOne(old(store.records), ByToken(pair.refreshToken)).None? ==>
          && r == Success(AuthResult(ToResponse(created.value), pair.accessToken, pair.refreshToken))
          && store.records == old(store.records) + [RefreshRecord(created.value.id, pair.refreshToken, now, now + refreshDays * DAY_MS)]
      ensures created.Success? ==>
        var pair := GenerateTokens(config, sign, Identity(created.value.id, created.value.email));
        FindOne(old(store.records), ByToken(pair.refreshToken)).Some? ==>
          r == Failure(WrapCreateError(DuplicateTokenError())) && store.records == old(store.records)
      ensures r.Failure? ==> store.records == old(store.records) && !r.error.Native?
    {
      if created.Failure? {
        return Failure(WrapCreateError(created.error));
      }
      var session := OpenSession(created.value, now, sign);
      if session.Failure? {
        return Failure(WrapCreateError(session.error));
      }
      r := session;
    }

    /**
     * `loginUser`: the credential checks, then a new session.  A failed
     * check leaves the collection untouched.
     */
    method LoginUser(email: string, password: string, now: int,
                     findByEmail: string -> Option<UserAccount>,
                     passwordMatches: (string, string) -> bool,
                     sign: Claims -> string) returns (r: Result<AuthResult, AppError>)
      requires Valid()
      modifies store
      ensures Valid()
      ensures CheckCredentials(findByEmail(email), password, passwordMatches).Failure? ==>
        r == Failure(CheckCredentials(findByEmail(email), password, passwordMatches).error)
        && store.records == old(store.records)
      ensures CheckCredentials(findByEmail(email), password, passwordMatches).Success? ==>
        var user := findByEmail(email).value;
        var pair := GenerateTokens(config, sign, Identity(user.id, user.email));
        FindOne(old(store.records), ByToken(pair.refreshToken)).None? ==>
          && r == Success(AuthResult(ToResponse(user), pair.accessToken, pair.refreshToken))
          && store.records == old(store.records) + [RefreshRecord(user.id, pair.refreshToken, now, now + refreshDays * DAY_MS)]
      ensures CheckCredentials(findByEmail(email), password, passwordMatches).Success? ==>
        var user := findByEmail(email).value;
        var pair := GenerateTokens(config, sign, Identity(user.id, user.email));
        FindOne(old(store.records), ByToken(pair.refreshToken)).Some? ==>
          r == Failure(DuplicateTokenError()) && store.records == old(store.records)
      ensures r.Failure? ==> store.records == old(store.records)
    {
      var user := findByEmail(email);
      var checked := CheckCredentials(user, password, passwordMatches);
      if checked.Failure? {
        return Failure(checked.error);
      }
      r := OpenSession(checked.value, now, sign);
    }

    /**
     * `refreshToken(presented, userData)`: look the session up, delete it,
     * refuse if its deadline has passed, otherwise mint a pair whose refresh
     * token lives exactly as long as the old session had left and record it
     * with the old deadline.
     */
    method RefreshToken(presented: string, userData: Option<DecodedToken>, now: int, sign: Claims -> string)
      returns (r: Result<TokenPair, AppError>)
      requires Valid()
      modifies store
      ensures Valid()
      ensures (r, store.records) == RefreshSpec(old(store.records), config, presented, userData, now, sign)
    {
      if userData.None? || userData.value.userId == "" {
        return Failure(Raise(UNAUTHORIZED, USER_NOT_FOUND));
      }
      var tokenDoc := store.FindByToken(presented);
      if tokenDoc.None? {
        return Failure(Raise(UNAUTHORIZED, REFRESH_TOKEN_NOT_FOUND));
      }
      var deleted := store.DeleteByToken(presented);
      r := ReplaceStoredSession(tokenDoc.value, Identity(userData.value.userId, userData.value.email), now, sign);
    }

    /**
     * The tail of `refreshToken` once the presented session `doc` is gone
     * from the collection: the deadline check, minting and recording.
     */
    method ReplaceStoredSession(doc: RefreshRecord, id: Identity, now: int, sign: Claims -> string)
      returns (r: Result<TokenPair, AppError>)
      requires Valid()
      modifies store
      ensures Valid()
      ensures (r, store.records) == ReplaceSession(old(store.records), config, doc, id, now, sign)
    {
      var remaining := Max(doc.expiresAt - now, 0);
      if remaining <= 0 {
        return Failure(Raise(UNAUTHORIZED, REFRESH_TOKEN_EXPIRED));
      }
      var newRefreshToken := GenerateRefreshToken(config, sign, SignParams(id, Some(Seconds(remaining / 1000))));
      var newAccessToken := GenerateAccessToken(config, sign, SignParams(id, None));
      var created := store.Create(doc.userId, newRefreshToken, now + remaining, now);
      if created.Failure? {
        return Failure(created.error);
      }
      r := Success(TokenPair(newAccessToken, newRefreshToken));
    }

    /** `logout`: ends the one session matching both user and token, or fails with 401 and changes nothing. */
    method Logout(userId: string, token: string) returns (r: Result<(), AppError>)
      requires Valid()
      modifies store
      ensures Valid()
      ensures r.Success? <==> FindOne(old(store.records), ByUserAndToken(userId, token)).Some?
      ensures r.Success? ==> store.records == DeleteOne(old(store.records), ByUserAndToken(userId, token))
      ensures r.Failure? ==> r.error == Raise(UNAUTHORIZED, REFRESH_TOKEN_NOT_FOUND) && store.records == old(store.records)
    {
      var deleted := store.DeleteByUserAndToken(userId, token);
      if !deleted {
        return Failure(Raise(UNAUTHORIZED, REFRESH_TOKEN_NOT_FOUND));
      }
      r := Success(());
    }

    /** `logoutAll`: ends every session of the user and never fails. */
    method LogoutAll(userId: string)
      requires Valid()
      modifies store
      ensures Valid()
      ensures store.records == DeleteMany(old(store.records), ByUser(userId))
      ensures forall x :: x in store.records <==> x in old(store.records) && x.userId != userId
    {
      var removed := store.DeleteAllByUserId(userId);
    }
  }
}
