/** Login sessions: each a family of refresh tokens, one of them current and the rest recorded as used. */
module Sessions {
  import opened Wrappers
  import opened Tokens

  datatype UserSession = UserSession(
    user: UserId, refreshDigest: Digest, expiresAt: int, revokedAt: Option<int>, lastUsedAt: Option<int>)

  predicate IsActive(s: UserSession, now: int) {
    s.revokedAt.None? && s.expiresAt > now
  }

  /** `accounts` maps an account to its `active` flag; `used` is keyed by its unique digest column. */
  datatype Tables = Tables(
    accounts: map<UserId, bool>, sessions: map<SessionId, UserSession>, used: map<Digest, SessionId>)

  datatype IssuedSession = IssuedSession(access: Jwt, refresh: Token, session: SessionId, user: UserId)

  /** The three ways `refresh_session` raises. */
  datatype Refusal = AlreadyUsed | NotValid | AccountNotActive

  /** `refresh_digest` is unique: at most one session has this digest. */
  ghost predicate HasDigest(db: Tables, digest: Digest, sid: SessionId) {
    sid in db.sessions && db.sessions[sid].refreshDigest == digest
  }

  ghost predicate UniqueDigests(db: Tables) {
    forall s, t :: s in db.sessions && t in db.sessions && s != t ==>
      db.sessions[s].refreshDigest != db.sessions[t].refreshDigest
  }

  function Opened(db: Tables, user: UserId, sid: SessionId, minted: Token, now: int): Tables {
    db.(sessions := db.sessions[sid := UserSession(user, Sha256(minted), now + REFRESH_TOKEN_TTL, None, Some(now))])
  }

  function Revoked(db: Tables, sid: SessionId, now: int): Tables {
    if sid in db.sessions && db.sessions[sid].revokedAt.None?
    then db.(sessions := db.sessions[sid := db.sessions[sid].(revokedAt := Some(now))])
    else db
  }

  function AllRevoked(db: Tables, user: UserId, now: int): Tables {
    db.(sessions := map s | s in db.sessions :: RevokedIfOf(db.sessions[s], user, now))
  }

  function RevokedIfOf(s: UserSession, user: UserId, now: int): UserSession {
    if s.user == user && s.revokedAt.None? then s.(revokedAt := Some(now)) else s
  }

  /** Rotation writes the used digest and two columns of the session row, nothing else. */
  function Rotated(db: Tables, sid: SessionId, token: Token, minted: Token, now: int): Tables
    requires sid in db.sessions
  {
    db.(
      used := db.used[Sha256(token) := sid],
      sessions := db.sessions[sid := db.sessions[sid].(refreshDigest := Sha256(minted), lastUsedAt := Some(now))])
  }

  /** The account row goes, and by cascade its sessions and their used digests. */
  function Deleted(db: Tables, user: UserId): Tables {
    var gone := set s | s in db.sessions && db.sessions[s].user == user;
    Tables(db.accounts - {user}, db.sessions - gone, map d | d in db.used && db.used[d] !in gone :: db.used[d])
  }

  predicate AccountActive(db: Tables, user: UserId) {
    user in db.accounts && db.accounts[user]
  }

  /** The session a presented digest rotates, when `refresh_session` lets it. */
  ghost predicate Rotates(db: Tables, token: Token, now: int, sid: SessionId) {
    && Sha256(token) !in db.used
    && HasDigest(db, Sha256(token), sid)
    && IsActive(db.sessions[sid], now)
    && AccountActive(db, db.sessions[sid].user)
  }

  /** The session behind an access token at time `now`, if the gate lets it in. */
  function Loaded(db: Tables, sid: SessionId, now: int): Option<UserSession> {
    if sid in db.sessions && IsActive(db.sessions[sid], now) then Some(db.sessions[sid]) else None
  }

  class SessionService {
    const secret: string
    var accounts: map<UserId, bool>
    var sessions: map<SessionId, UserSession>
    var used: map<Digest, SessionId>

    constructor (secret: string)
      ensures this.secret == secret && Db() == Tables(map[], map[], map[])
    {
      this.secret := secret;
      accounts, sessions, used := map[], map[], map[];
    }

    function Db(): Tables
      reads this
    {
      Tables(accounts, sessions, used)
    }

    /** `_issue_session`, with the id and the token the random sources returned. */
    method IssueSession(user: UserId, sid: SessionId, minted: Token, now: int) returns (r: IssuedSession)
      requires sid !in sessions
      modifies this`sessions
      ensures Db() == Opened(old(Db()), user, sid, minted, now)
      ensures sessions == old(sessions)[sid := UserSession(user, Sha256(minted), now + 30 * 24 * 60 * 60, None, Some(now))]
      ensures r == IssuedSession(r.access, minted, sid, user)
      ensures GoodFor(r.access, secret, user, sid, now + 15 * 60)
    {
      sessions := sessions[sid := UserSession(user, Sha256(minted), now + REFRESH_TOKEN_TTL, None, Some(now))];
      return IssuedSession(IssueAccessToken(user, sid, secret, now), minted, sid, user);
    }

    /** `refresh_session`: replay detection first, then rotation. */
    method RefreshSession(token: Token, minted: Token, now: int) returns (r: Result<IssuedSession, Refusal>)
      requires UniqueDigests(Db())
      modifies this
      ensures accounts == old(accounts)
      ensures r == Err(AlreadyUsed) <==> Sha256(token) in old(used)
      ensures r == Err(AlreadyUsed) ==> Db() == Revoked(old(Db()), old(used)[Sha256(token)], now)
      ensures r.Err? && r != Err(AlreadyUsed) ==> Db() == old(Db())
      ensures r.Ok? <==> exists sid :: Rotates(old(Db()), token, now, sid)
      ensures r.Ok? ==>
        && var sid := r.value.session;
        && Rotates(old(Db()), token, now, sid)
        && Db() == Rotated(old(Db()), sid, token, minted, now)
        && sessions == old(sessions)[sid := old(sessions)[sid].(refreshDigest := Sha256(minted), lastUsedAt := Some(now))]
        && used == old(used)[Sha256(token) := sid]
        && r.value == IssuedSession(r.value.access, minted, sid, old(sessions)[sid].user)
        && GoodFor(r.value.access, secret, old(sessions)[sid].user, sid, now + 15 * 60)
    {
      var digest := Sha256(token);
      if digest in used {
        RevokeSessionById(used[digest], now);
        return Err(AlreadyUsed);
      }
      var found := set s | s in sessions && sessions[s].refreshDigest == digest;
      if found == {} {
        assert forall s :: HasDigest(Db(), digest, s) ==> s in found;
        return Err(NotValid);
      }
      var sid :| sid in found;
      assert forall s :: HasDigest(Db(), digest, s) ==> s == sid;
      if !IsActive(sessions[sid], now) {
        return Err(NotValid);
      }
      var user := sessions[sid].user;
      if user !in accounts || !accounts[user] {
        return Err(AccountNotActive);
      }
      assert Rotates(Db(), token, now, sid);
      used := used[digest := sid];
      sessions := sessions[sid := sessions[sid].(refreshDigest := Sha256(minted))];
      sessions := sessions[sid := sessions[sid].(lastUsedAt := Some(now))];
      return Ok(IssuedSession(IssueAccessToken(user, sid, secret, now), minted, sid, user));
    }

    /**
     * The refresh route: a refusal is answered with an error, so its transaction is rolled back, and with it
     * the revocation a replay had just made.
     */
    method RefreshRoute(token: Token, minted: Token, now: int) returns (r: Result<IssuedSession, Refusal>)
      requires UniqueDigests(Db())
      modifies this
      ensures r.Err? ==> Db() == old(Db())
      ensures r == Err(AlreadyUsed) <==> Sha256(token) in old(used)
      ensures r.Ok? <==> exists sid :: Rotates(old(Db()), token, now, sid)
      ensures r.Ok? ==> Rotates(old(Db()), token, now, r.value.session)
      ensures r.Ok? ==> Db() == Rotated(old(Db()), r.value.session, token, minted, now)
    {
      var saved := Db();
      r := RefreshSession(token, minted, now);
      if r.Err? {
        accounts, sessions, used := saved.accounts, saved.sessions, saved.used;
      }
    }

    /** `_revoke_session_by_id`, which `revoke_session` (logout) is another name for. */
    method RevokeSessionById(sid: SessionId, now: int)
      modifies this`sessions
      ensures Db() == Revoked(old(Db()), sid, now)
    {
      if sid in sessions && sessions[sid].revokedAt.None? {
        sessions := sessions[sid := sessions[sid].(revokedAt := Some(now))];
      }
    }

    /** The gate every authenticated request passes. */
    method LoadActiveSession(sid: SessionId, now: int) returns (r: Option<UserSession>)
      ensures r == Loaded(Db(), sid, now)
    {
      if sid !in sessions || !IsActive(sessions[sid], now) {
        return None;
      }
      return Some(sessions[sid]);
    }

    /** `logout_everywhere`: a loop over the account's unrevoked sessions. */
    method LogoutEverywhere(user: UserId, now: int)
      modifies this`sessions
      ensures Db() == AllRevoked(old(Db()), user, now)
    {
      var todo := set s | s in sessions && sessions[s].user == user && sessions[s].revokedAt.None?;
      while todo != {}
        invariant sessions.Keys == old(sessions).Keys
        invariant todo == set s | s in sessions && sessions[s].user == user && sessions[s].revokedAt.None?
        invariant forall s :: s in sessions && s in todo ==> sessions[s] == old(sessions)[s]
        invariant forall s :: s in sessions && s !in todo ==> sessions[s] == RevokedIfOf(old(sessions)[s], user, now)
      {
        var s :| s in todo;
        sessions := sessions[s := sessions[s].(revokedAt := Some(now))];
        todo := todo - {s};
      }
      assert sessions == AllRevoked(old(Db()), user, now).sessions;
    }
  }

  /** A refresh goes through exactly for an unspent token that is current for a live session of an active account. */
  lemma RotatesIff(db: Tables, token: Token, now: int, sid: SessionId)
    ensures Rotates(db, token, now, sid) <==>
      && Sha256(token) !in db.used
      && sid in db.sessions && db.sessions[sid].refreshDigest == Sha256(token)
      && db.sessions[sid].revokedAt == None && now < db.sessions[sid].expiresAt
      && (db.sessions[sid].user, true) in db.accounts.Items
  {
  }

  /** Logging a session out shuts it out for good and touches no other; logging out again changes nothing. */
  lemma LogoutEndsIt(db: Tables, sid: SessionId, now: int, again: int)
    ensures var db' := Revoked(db, sid, now);
      && (forall t :: Loaded(db', sid, t).None?)
      && db'.sessions.Keys == db.sessions.Keys && db'.used == db.used && db'.accounts == db.accounts
      && (forall s :: s in db.sessions && s != sid ==> db'.sessions[s] == db.sessions[s])
      && Revoked(db', sid, again) == db'
      && (sid in db.sessions ==>
        && db'.sessions[sid].(revokedAt := None) == db.sessions[sid].(revokedAt := None)
        && db'.sessions[sid].revokedAt
          == if db.sessions[sid].revokedAt.Some? then db.sessions[sid].revokedAt else Some(now))
  {
  }

  /** Logging out everywhere does that to each of the account's sessions, and to nobody else's. */
  lemma LogoutEverywhereEndsEach(db: Tables, user: UserId, now: int, s: SessionId)
    requires s in db.sessions
    ensures var db' := AllRevoked(db, user, now);
      && s in db'.sessions
      && db'.sessions[s] == (if db.sessions[s].user == user then Revoked(db, s, now) else db).sessions[s]
      && (db.sessions[s].user == user ==> forall t :: Loaded(db', s, t).None?)
  {
    LogoutEndsIt(db, s, now, now);
  }

  /** Deleting an account leaves none of its sessions and none of their used tokens, and everybody else's as they were. */
  lemma DeletionEndsItsSessions(db: Tables, user: UserId)
    ensures var db' := Deleted(db, user);
      && user !in db'.accounts
      && (forall s :: s in db'.sessions <==> s in db.sessions && db.sessions[s].user != user)
      && (forall s :: s in db'.sessions ==> db'.sessions[s] == db.sessions[s])
      && (forall d :: d in db'.used <==>
        d in db.used && !(db.used[d] in db.sessions && db.sessions[db.used[d]].user == user))
      && (forall d :: d in db'.used ==> db'.used[d] == db.used[d])
  {
  }

}
