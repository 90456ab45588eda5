/**
 * The refresh-session collection of src/models/refresh-token.model.ts.
 * The collection is a sequence of records in insertion order; the filter
 * documents the model sends to MongoDB are the `Query` values below, and
 * `find`, `findOne`, `countDocuments`, `deleteOne` and `deleteMany` are the
 * functions of the same names over that sequence.  The clock reading
 * `new Date()` is the parameter `now` (milliseconds).
 */
module RefreshTokens {
  import opened Wrappers
  import opened HttpErrors

  /** One session: IRefreshToken (the optional device fields are not modelled). */
  datatype RefreshRecord = RefreshRecord(userId: string, token: string, createdAt: int, expiresAt: int)

  /** The filter documents used by the model. */
  datatype Query =
    | ByToken(token: string)                              // { token }
    | ByUser(userId: string)                              // { user_id }
    | ByUserAndToken(userId: string, token: string)       // { user_id, token }
    | LiveSession(userId: string, token: string, now: int) // { user_id, token, expires_at: { $gt: now } }
    | ExpiredBefore(now: int)                             // { expires_at: { $lt: now } }

  predicate Matches(q: Query, x: RefreshRecord) {
    match q
    case ByToken(t) => x.token == t
    case ByUser(u) => x.userId == u
    case ByUserAndToken(u, t) => x.userId == u && x.token == t
    case LiveSession(u, t, now) => x.userId == u && x.token == t && x.expiresAt > now
    case ExpiredBefore(now) => x.expiresAt < now
  }

  /** A query that pins the token, so the unique index lets at most one record match. */
  predicate PinsToken(q: Query) {
    q.ByToken? || q.ByUserAndToken? || q.LiveSession?
  }

  /** The unique index on `token`: no two records share a token. */
  predicate UniqueTokens(rs: seq<RefreshRecord>) {
    rs == [] || ((forall y :: y in rs[1..] ==> y.token != rs[0].token) && UniqueTokens(rs[1..]))
  }

  /** `find(q).toArray()`: the matching records, in collection order. */
  function Find(rs: seq<RefreshRecord>, q: Query): (r: seq<RefreshRecord>)
    ensures |r| <= |rs|
    ensures forall x :: x in r <==> x in rs && Matches(q, x)
  {
    if rs == [] then []
    else if Matches(q, rs[0]) then [rs[0]] + Find(rs[1..], q)
    else Find(rs[1..], q)
  }

  /** `findOne(q)`: a matching record, or null when none matches. */
  function FindOne(rs: seq<RefreshRecord>, q: Query): (r: Option<RefreshRecord>)
    ensures r.Some? ==> r.value in rs && Matches(q, r.value)
    ensures r.None? <==> forall x :: x in rs ==> !Matches(q, x)
  {
    if rs == [] then None
    else if Matches(q, rs[0]) then Some(rs[0])
    else FindOne(rs[1..], q)
  }

  /** `countDocuments(q)`. */
  function CountDocuments(rs: seq<RefreshRecord>, q: Query): (n: nat)
    ensures n <= |rs|
    ensures n == 0 <==> forall x :: x in rs ==> !Matches(q, x)
  {
    if rs == [] then 0
    else (if Matches(q, rs[0]) then 1 else 0) + CountDocuments(rs[1..], q)
  }

  /** `deleteMany(q)`: exactly the non-matching records remain, and the count says how many went. */
  function DeleteMany(rs: seq<RefreshRecord>, q: Query): (r: seq<RefreshRecord>)
    ensures forall x :: x in r <==> x in rs && !Matches(q, x)
    ensures |r| == |rs| - CountDocuments(rs, q)
  {
    if rs == [] then []
    else if Matches(q, rs[0]) then DeleteMany(rs[1..], q)
    else [rs[0]] + DeleteMany(rs[1..], q)
  }

  /** `deleteOne(q)`: the first matching record is removed, nothing else. */
  function DeleteOne(rs: seq<RefreshRecord>, q: Query): (r: seq<RefreshRecord>)
    ensures forall x :: x in r ==> x in rs
    ensures FindOne(rs, q).None? ==> r == rs
    ensures FindOne(rs, q).Some? ==>
      |r| + 1 == |rs| && multiset(r) + multiset{FindOne(rs, q).value} == multiset(rs)
  {
    if rs == [] then []
    else
      assert rs == [rs[0]] + rs[1..];
      if Matches(q, rs[0]) then rs[1..]
      else [rs[0]] + DeleteOne(rs[1..], q)
  }

  /** The error `insertOne` throws when the unique token index rejects a record. */
  function DuplicateTokenError(): AppError {
    Native("MongoServerError", "E11000 duplicate key error", Some(11000), ["token"])
  }

  // ---------- the unique token index ----------

  /** Two records of a uniquely indexed collection that share a token are the same record. */
  lemma {:induction false} UniqueTokenMember(rs: seq<RefreshRecord>, x: RefreshRecord, y: RefreshRecord)
    requires UniqueTokens(rs) && x in rs && y in rs && x.token == y.token
    ensures x == y
  {
    if x != rs[0] && y != rs[0] {
      UniqueTokenMember(rs[1..], x, y);
    }
  }

  lemma {:induction false} DeleteManyKeepsUnique(rs: seq<RefreshRecord>, q: Query)
    requires UniqueTokens(rs)
    ensures UniqueTokens(DeleteMany(rs, q))
  {
    if rs != [] {
      DeleteManyKeepsUnique(rs[1..], q);
      if !Matches(q, rs[0]) {
        var r := DeleteMany(rs, q);
        assert r[1..] == DeleteMany(rs[1..], q);
      }
    }
  }

  lemma {:induction false} DeleteOneKeepsUnique(rs: seq<RefreshRecord>, q: Query)
    requires UniqueTokens(rs)
    ensures UniqueTokens(DeleteOne(rs, q))
  {
    if rs != [] && !Matches(q, rs[0]) {
      DeleteOneKeepsUnique(rs[1..], q);
      var r := DeleteOne(rs, q);
      assert r[1..] == DeleteOne(rs[1..], q);
    }
  }

  lemma {:induction false} AppendKeepsUnique(rs: seq<RefreshRecord>, x: RefreshRecord)
    requires UniqueTokens(rs) && FindOne(rs, ByToken(x.token)).None?
    ensures UniqueTokens(rs + [x])
  {
    if rs != [] {
      assert (rs + [x])[1..] == rs[1..] + [x];
      AppendKeepsUnique(rs[1..], x);
      assert rs[0] in rs;
    }
  }

  // ---------- properties of the queries ----------

  /** `countByUserId` agrees with the size of `findByUserId`, for any filter. */
  lemma {:induction false} CountIsFindSize(rs: seq<RefreshRecord>, q: Query)
    ensures CountDocuments(rs, q) == |Find(rs, q)|
  {
    if rs != [] {
      CountIsFindSize(rs[1..], q);
    }
  }

  /** `findOne` returns the first record `find` would list. */
  lemma {:induction false} FindOneIsFirstOfFind(rs: seq<RefreshRecord>, q: Query)
    ensures FindOne(rs, q) == if Find(rs, q) == [] then None else Some(Find(rs, q)[0])
  {
    if rs != [] && !Matches(q, rs[0]) {
      FindOneIsFirstOfFind(rs[1..], q);
    }
  }

  /**
   * With the unique index, a `deleteOne` whose filter pins the token removes
   * every record the filter matches, as a `deleteMany` would.
   */
  lemma {:induction false} DeleteOneOfPinnedToken(rs: seq<RefreshRecord>, q: Query)
    requires UniqueTokens(rs) && PinsToken(q)
    ensures DeleteOne(rs, q) == DeleteMany(rs, q)
  {
    if rs != [] {
      if Matches(q, rs[0]) {
        NothingMatchesAfterPinnedHit(rs, q);
      } else {
        DeleteOneOfPinnedToken(rs[1..], q);
      }
    }
  }

  lemma {:induction false} NothingMatchesAfterPinnedHit(rs: seq<RefreshRecord>, q: Query)
    requires rs != [] && UniqueTokens(rs) && PinsToken(q) && Matches(q, rs[0])
    ensures DeleteMany(rs[1..], q) == rs[1..]
  {
    assert forall y :: y in rs[1..] ==> !Matches(q, y);
    NoMatchNoDelete(rs[1..], q);
  }

  lemma {:induction false} NoMatchNoDelete(rs: seq<RefreshRecord>, q: Query)
    requires forall x :: x in rs ==> !Matches(q, x)
    ensures DeleteMany(rs, q) == rs
  {
    if rs != [] {
      NoMatchNoDelete(rs[1..], q);
    }
  }

  /**
   * `deleteByUserAndToken` cannot remove another user's session: when the
   * record holding `token` belongs to someone else, nothing matches and the
   * collection is unchanged.
   */
  lemma ScopedDeleteSparesOtherOwner(rs: seq<RefreshRecord>, userId: string, token: string)
    requires UniqueTokens(rs)
    requires FindOne(rs, ByToken(token)).Some? && FindOne(rs, ByToken(token)).value.userId != userId
    ensures FindOne(rs, ByUserAndToken(userId, token)).None?
    ensures DeleteOne(rs, ByUserAndToken(userId, token)) == rs
  {
    var owner := FindOne(rs, ByToken(token)).value;
    forall x | x in rs ensures !Matches(ByUserAndToken(userId, token), x) {
      if x.token == token {
        UniqueTokenMember(rs, x, owner);
      }
    }
  }

  /**
   * The expiry sweep removes exactly the records with `expires_at < now`,
   * keeps every session `isValid` accepts at `now`, and keeps a record whose
   * deadline is exactly `now`, although `isValid` rejects it.
   */
  lemma SweepKeepsLiveSessions(rs: seq<RefreshRecord>, now: int, userId: string, token: string)
    ensures forall x :: x in DeleteMany(rs, ExpiredBefore(now)) ==> x.expiresAt >= now
    ensures FindOne(DeleteMany(rs, ExpiredBefore(now)), LiveSession(userId, token, now)).Some?
        <==> FindOne(rs, LiveSession(userId, token, now)).Some?
    ensures forall x :: x in rs && x.expiresAt == now ==>
      x in DeleteMany(rs, ExpiredBefore(now)) && !Matches(LiveSession(x.userId, x.token, now), x)
  {
    var live := FindOne(rs, LiveSession(userId, token, now));
    if live.Some? {
      assert live.value in DeleteMany(rs, ExpiredBefore(now));
    }
  }

  /** A second `deleteMany` with the same filter removes nothing (logout-all is idempotent). */
  lemma {:induction false} DeleteManyIdempotent(rs: seq<RefreshRecord>, q: Query)
    ensures CountDocuments(DeleteMany(rs, q), q) == 0
    ensures DeleteMany(DeleteMany(rs, q), q) == DeleteMany(rs, q)
  {
    NoMatchNoDelete(DeleteMany(rs, q), q);
  }

  /**
   * RefreshTokenModel: the collection, its unique token index, and the
   * model's static operations as methods on it.
   */
  class RefreshTokenModel {
    var records: seq<RefreshRecord>

    ghost predicate Valid()
      reads this
    {
      UniqueTokens(records)
    }

    constructor ()
      ensures Valid() && records == []
    {
      records := [];
    }

    /**
     * `create`: stamps `created_at = now` and inserts; a token already in the
     * collection is refused by the unique index and nothing changes.
     */
    method Create(userId: string, token: string, expiresAt: int, now: int) returns (r: Result<RefreshRecord, AppError>)
      requires Valid()
      modifies this
      ensures Valid()
      ensures FindOne(old(records), ByToken(token)).Some? ==>
        r == Failure(DuplicateTokenError()) && records == old(records)
      ensures FindOne(old(records), ByToken(token)).None? ==>
        r == Success(RefreshRecord(userId, token, now, expiresAt)) && records == old(records) + [r.value]
    {
      if FindOne(records, ByToken(token)).Some? {
        return Failure(DuplicateTokenError());
      }
      var record := RefreshRecord(userId, token, now, expiresAt);
      AppendKeepsUnique(records, record);
      records := records + [record];
      r := Success(record);
    }

    /** `findByToken`. */
    method FindByToken(token: string) returns (r: Option<RefreshRecord>)
      ensures r == FindOne(records, ByToken(token))
    {
      r := FindOne(records, ByToken(token));
    }

    /** `findByUserId`. */
    method FindByUserId(userId: string) returns (r: seq<RefreshRecord>)
      ensures r == Find(records, ByUser(userId))
    {
      r := Find(records, ByUser(userId));
    }

    /** `isValid`: some record of this user with this token expires strictly after `now`. */
    method IsValid(userId: string, token: string, now: int) returns (b: bool)
      ensures b <==> exists x :: x in records && x.userId == userId && x.token == token && x.expiresAt > now
    {
      var found := FindOne(records, LiveSession(userId, token, now));
      b := found.Some?;
    }

    /** `deleteByToken`: true exactly when a record was removed. */
    method DeleteByToken(token: string) returns (deleted: bool)
      requires Valid()
      modifies this
      ensures Valid()
      ensures records == DeleteOne(old(records), ByToken(token))
      ensures deleted <==> FindOne(old(records), ByToken(token)).Some?
      ensures records == DeleteMany(old(records), ByToken(token))
    {
      deleted := FindOne(records, ByToken(token)).Some?;
      DeleteOneKeepsUnique(records, ByToken(token));
      DeleteOneOfPinnedToken(records, ByToken(token));
      records := DeleteOne(records, ByToken(token));
    }

    /** `deleteByUserAndToken`: removes the session only when both owner and token match. */
    method DeleteByUserAndToken(userId: string, token: string) returns (deleted: bool)
      requires Valid()
      modifies this
      ensures Valid()
      ensures records == DeleteOne(old(records), ByUserAndToken(userId, token))
      ensures deleted <==> FindOne(old(records), ByUserAndToken(userId, token)).Some?
      ensures records == DeleteMany(old(records), ByUserAndToken(userId, token))
    {
      deleted := FindOne(records, ByUserAndToken(userId, token)).Some?;
      DeleteOneKeepsUnique(records, ByUserAndToken(userId, token));
      DeleteOneOfPinnedToken(records, ByUserAndToken(userId, token));
      records := DeleteOne(records, ByUserAndToken(userId, token));
    }

    /** `deleteAllByUserId`: every record of the user goes, no other; returns how many went. */
    method DeleteAllByUserId(userId: string) returns (n: nat)
      requires Valid()
      modifies this
      ensures Valid()
      ensures records == DeleteMany(old(records), ByUser(userId))
      ensures n == CountDocuments(old(records), ByUser(userId)) == |old(records)| - |records|
    {
      n := CountDocuments(records, ByUser(userId));
      DeleteManyKeepsUnique(records, ByUser(userId));
      records := DeleteMany(records, ByUser(userId));
    }

    /** `deleteExpired`: every record with `expires_at < now` goes, no other; returns how many went. */
    method DeleteExpired(now: int) returns (n: nat)
      requires Valid()
      modifies this
      ensures Valid()
      ensures records == DeleteMany(old(records), ExpiredBefore(now))
      ensures n == CountDocuments(old(records), ExpiredBefore(now)) == |old(records)| - |records|
    {
      n := CountDocuments(records, ExpiredBefore(now));
      DeleteManyKeepsUnique(records, ExpiredBefore(now));
      records := DeleteMany(records, ExpiredBefore(now));
    }

    /** `countByUserId`. */
    method CountByUserId(userId: string) returns (n: nat)
      ensures n == CountDocuments(records, ByUser(userId))
    {
      n := CountDocuments(records, ByUser(userId));
    }

    /** `getUserIdFromToken`: the owner of the `findByToken` result, or null. */
    method GetUserIdFromToken(token: string) returns (r: Option<string>)
      ensures r.None? <==> FindOne(records, ByToken(token)).None?
      ensures r.Some? ==> r.value == FindOne(records, ByToken(token)).value.userId
    {
      var found := FindByToken(token);
      r := if found.Some? then Some(found.value.userId) else None;
    }
  }
}
