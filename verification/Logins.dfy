/**
 * Everything that opens a session or uses up a second factor: password login, MFA verification, passkey
 * login, enrolment, disabling and account deletion, each inside its request transaction.
 */
module Logins {
  import opened Wrappers
  import opened Mfa
  import L = Limiter
  import T = Tokens

  type SessionId = nat

  /** An account row; the stored hash is represented by the one password it verifies. */
  datatype Account = Account(email: string, password: string, active: bool)

  /** A pending passkey challenge; a login challenge for an unknown email is nobody's. */
  datatype Challenge = Challenge(user: Option<UserId>, expiresAt: int)

  /** `passkeys` maps a credential to its account. */
  datatype State = State(
    accounts: map<UserId, Account>, tables: Tables, passkeys: map<string, UserId>, challenges: map<string, Challenge>,
    sessions: map<SessionId, UserId>, events: seq<L.AuthEvent>)

  predicate AccountActive(s: State, user: UserId) {
    user in s.accounts && s.accounts[user].active
  }

  predicate PasswordMatches(s: State, user: UserId, password: string) {
    user in s.accounts && s.accounts[user].password == password
  }

  /** `found` is what looking up the normalized email returns. */
  predicate LooksUp(s: State, email: string, found: Option<UserId>) {
    match found
    case Some(user) => user in s.accounts && s.accounts[user].email == L.NormalizeEmail(email)
    case None => forall u :: u in s.accounts ==> s.accounts[u].email != L.NormalizeEmail(email)
  }

  /** A password attempt as the limiter's trail sees it. */
  function AsAttempt(s: State, found: Option<UserId>, email: string, password: string, now: int): L.Attempt {
    L.Password(
      email,
      found.Some? && PasswordMatches(s, found.value, password) && AccountActive(s, found.value),
      found.Some? && IsMfaActive(s.tables, found.value),
      now)
  }

  /** The password alone opens a session only while the account owes no second factor. */
  predicate PasswordOpens(s: State, found: Option<UserId>, email: string, password: string, now: int) {
    var a := AsAttempt(s, found, email, password, now);
    !L.Throttled(s.events, L.NormalizeEmail(email), now) && a.accepted && !a.mfaOwed
  }

  /** With MFA active the same password earns a challenge to answer, and nothing else. */
  predicate PasswordOwes(s: State, found: Option<UserId>, email: string, password: string, now: int) {
    var a := AsAttempt(s, found, email, password, now);
    !L.Throttled(s.events, L.NormalizeEmail(email), now) && a.accepted && a.mfaOwed
  }

  function AfterPassword(s: State, found: Option<UserId>, email: string, password: string, sid: SessionId, now: int): State {
    s.(
      events := L.Recorded(s.events, AsAttempt(s, found, email, password, now)),
      sessions := if PasswordOpens(s, found, email, password, now) then s.sessions[sid := found.value] else s.sessions)
  }

  /** The factor a code uses up for an active account. */
  function FactorFor(s: State, totp: Totp, user: UserId, code: string, keyConfigured: bool, now: int): Option<Factor> {
    if AccountActive(s, user) && keyConfigured then
      match Accepts(s.tables, totp, user, code, now)
      case Ok(factor) => Some(factor)
      case Err(_) => None
    else None
  }

  function SignedIn(s: State, user: UserId, sid: SessionId, now: int): State {
    if user !in s.accounts then s
    else s.(
      sessions := s.sessions[sid := user],
      events := L.Recorded(s.events, L.SecondFactor(s.accounts[user].email, now)))
  }

  function AfterVerify(s: State, totp: Totp, user: UserId, code: string, keyConfigured: bool, sid: SessionId, now: int): State {
    match FactorFor(s, totp, user, code, keyConfigured, now)
    case None => s
    case Some(factor) => SignedIn(s.(tables := Consumed(s.tables, factor, now)), user, sid, now)
  }

  function AfterDisable(s: State, totp: Totp, user: UserId, password: string, code: string, keyConfigured: bool, now: int): State {
    if !PasswordMatches(s, user, password) || FactorFor(s, totp, user, code, keyConfigured, now).None? then s
    else s.(tables := Disabled(Consumed(s.tables, FactorFor(s, totp, user, code, keyConfigured, now).value, now), user))
  }

  /** The assertion answers a live challenge, for a known credential of an active account, and verifies. */
  predicate PasskeyOpens(s: State, challenge: string, credential: string, verified: bool, now: int) {
    && challenge in s.challenges && s.challenges[challenge].expiresAt > now
    && credential in s.passkeys && AccountActive(s, s.passkeys[credential]) && verified
  }

  function AfterPasskey(s: State, challenge: string, credential: string, verified: bool, sid: SessionId, now: int): State {
    if !PasskeyOpens(s, challenge, credential, verified, now) then s
    else SignedIn(s.(challenges := s.challenges - {challenge}), s.passkeys[credential], sid, now)
  }

  /** The account and, by cascade, its enrolment, codes, passkeys, challenges and sessions. */
  function Without(s: State, user: UserId): State {
    State(
      s.accounts - {user}, Disabled(s.tables, user),
      map c | c in s.passkeys && s.passkeys[c] != user :: s.passkeys[c],
      map c | c in s.challenges && s.challenges[c].user != Some(user) :: s.challenges[c],
      map sid | sid in s.sessions && s.sessions[sid] != user :: s.sessions[sid],
      s.events)
  }

  /** The factor account deletion uses up; Some(None) when it owes none. */
  function DeletionFactor(s: State, totp: Totp, user: UserId, password: string, code: Option<string>, keyConfigured: bool, now: int):
    Option<Option<Factor>>
  {
    if !AccountActive(s, user) || !PasswordMatches(s, user, password) then None
    else if !IsMfaActive(s.tables, user) then Some(None)
    else if code.None? then None
    else
      var factor := FactorFor(s, totp, user, code.value, keyConfigured, now);
      if factor.None? then None else Some(factor)
  }

  /**
   * What a password attempt comes to: with fewer than ten recent failures, for an active account of that email and
   * with exactly its stored password, a session if no enrolment is confirmed and a challenge if one is.
   */
  lemma PasswordDecides(s: State, found: Option<UserId>, email: string, password: string, now: int)
    requires LooksUp(s, email, found)
    ensures PasswordOpens(s, found, email, password, now) || PasswordOwes(s, found, email, password, now) <==>
      && |L.FailuresSince(s.events, L.NormalizeEmail(email), now - 15 * 60)| < 10
      && found.Some? && found.value in s.accounts
      && s.accounts[found.value].active && s.accounts[found.value].password == password
    ensures found.Some? ==> found.value in s.accounts && s.accounts[found.value].email == L.NormalizeEmail(email)
    ensures found.None? ==> forall u :: u in s.accounts ==> s.accounts[u].email != L.NormalizeEmail(email)
    ensures PasswordOpens(s, found, email, password, now) ==>
      found.value !in s.tables.mfa || s.tables.mfa[found.value].confirmedAt.None?
    ensures PasswordOwes(s, found, email, password, now) ==>
      found.value in s.tables.mfa && s.tables.mfa[found.value].confirmedAt.Some?
  {
    L.LetThroughIff(s.events, L.NormalizeEmail(email), now);
  }

  /** The wrong password gets nowhere, anywhere it is asked for. */
  lemma WrongPasswordIsRefused(
    s: State, totp: Totp, user: UserId, email: string, password: string, code: string, keyConfigured: bool, now: int)
    requires user in s.accounts && s.accounts[user].password != password
    ensures !PasswordOpens(s, Some(user), email, password, now) && !PasswordOwes(s, Some(user), email, password, now)
    ensures AfterDisable(s, totp, user, password, code, keyConfigured, now) == s
    ensures DeletionFactor(s, totp, user, password, Some(code), keyConfigured, now).None?
    ensures DeletionFactor(s, totp, user, password, None, keyConfigured, now).None?
  {
  }

  /**
   * An account can be deleted exactly by its password while no enrolment is confirmed, and by its password and an
   * acceptable code while one is: no code, no key or a code that is refused deletes nothing.
   */
  lemma DeletionDecides(
    s: State, totp: Totp, user: UserId, password: string, code: Option<string>, keyConfigured: bool, now: int)
    requires user in s.accounts && s.accounts[user].active
    ensures DeletionFactor(s, totp, user, password, code, keyConfigured, now).Some? <==>
      && s.accounts[user].password == password
      && (user in s.tables.mfa && s.tables.mfa[user].confirmedAt.Some? ==>
        code.Some? && keyConfigured && Accepts(s.tables, totp, user, code.value, now).Ok?)
  {
  }

  /** MFA goes exactly by its account's password and an acceptable code, and then wholly. */
  lemma DisablingDecides(s: State, totp: Totp, user: UserId, password: string, code: string, keyConfigured: bool, now: int)
    requires user in s.accounts && s.accounts[user].active
    ensures var s' := AfterDisable(s, totp, user, password, code, keyConfigured, now);
      if s.accounts[user].password == password && keyConfigured && Accepts(s.tables, totp, user, code, now).Ok?
      then user !in s'.tables.mfa && (forall k :: k in s'.tables.recovery ==> k.0 != user) && s' == s.(tables := s'.tables)
      else s' == s
  {
  }

  /** With the server's key set, an active account's acceptable code signs it in: the new session is its own. */
  lemma AcceptedCodeSignsIn(s: State, totp: Totp, user: UserId, code: string, factor: Factor, sid: SessionId, now: int)
    requires user in s.accounts && s.accounts[user].active && Accepts(s.tables, totp, user, code, now) == Ok(factor)
    ensures AfterVerify(s, totp, user, code, true, sid, now) == s.(
      tables := Consumed(s.tables, factor, now),
      sessions := s.sessions[sid := user],
      events := s.events + [L.AuthEvent(s.accounts[user].email, L.LoginSucceeded, now)])
    ensures AfterVerify(s, totp, user, code, false, sid, now) == s
  {
  }

  /** And an inactive or deleted account's signs nobody in, whatever the code. */
  lemma InactiveAccountsStayOut(
    s: State, totp: Totp, user: UserId, password: string, code: string, keyConfigured: bool, sid: SessionId, now: int)
    requires user !in s.accounts || !s.accounts[user].active
    ensures AfterVerify(s, totp, user, code, keyConfigured, sid, now) == s
    ensures forall email :: !PasswordOpens(s, Some(user), email, password, now) && !PasswordOwes(s, Some(user), email, password, now)
    ensures forall c, k :: k in s.passkeys && s.passkeys[k] == user ==> !PasskeyOpens(s, c, k, true, now)
  {
  }

  /** Nothing of a deleted account is left to sign in with or to be signed in as. */
  lemma DeletionLeavesNothing(s: State, user: UserId)
    ensures var s' := Without(s, user);
      && user !in s'.accounts && user !in s'.tables.mfa
      && (forall k :: k in s'.tables.recovery ==> k.0 != user)
      && (forall c :: c in s'.passkeys ==> s'.passkeys[c] != user)
      && (forall c :: c in s'.challenges <==> c in s.challenges && s.challenges[c].user != Some(user))
      && (forall c :: c in s'.challenges ==> s'.challenges[c] == s.challenges[c])
      && (forall x :: x in s'.sessions ==> s'.sessions[x] != user)
      && s'.events == s.events
  {
  }

  /** Whatever this was, it was `user`'s business only: nobody else's account, factors, passkeys or sessions changed. */
  ghost predicate OthersKept(s: State, s': State, user: UserId) {
    && (forall u :: u != user ==>
      && (u in s'.accounts <==> u in s.accounts) && (u in s.accounts ==> s'.accounts[u] == s.accounts[u])
      && (u in s'.tables.mfa <==> u in s.tables.mfa) && (u in s.tables.mfa ==> s'.tables.mfa[u] == s.tables.mfa[u]))
    && (forall k: (UserId, CodeDigest) :: k.0 != user ==>
      && (k in s'.tables.recovery <==> k in s.tables.recovery)
      && (k in s.tables.recovery ==> s'.tables.recovery[k] == s.tables.recovery[k]))
    && (forall c :: c in s.passkeys && s.passkeys[c] != user ==> c in s'.passkeys && s'.passkeys[c] == s.passkeys[c])
    && (forall c :: c in s'.passkeys ==> c in s.passkeys)
    && (forall x :: x in s.sessions && s.sessions[x] != user ==> x in s'.sessions && s'.sessions[x] == s.sessions[x])
    && (forall x :: x in s'.sessions && s'.sessions[x] != user ==> x in s.sessions && s.sessions[x] == s'.sessions[x])
  }

  lemma DeletionKeepsOthers(s: State, user: UserId)
    ensures OthersKept(s, Without(s, user), user)
  {
  }

  lemma DisablingKeepsOthers(
    s: State, totp: Totp, user: UserId, password: string, code: string, keyConfigured: bool, now: int)
    ensures OthersKept(s, AfterDisable(s, totp, user, password, code, keyConfigured, now), user)
  {
    var factor := FactorFor(s, totp, user, code, keyConfigured, now);
    if factor.Some? {
      DisabledForgetsUse(s.tables, user, factor.value, now);
    }
  }

  /** Which of an account's factors was used last no longer matters once they are all gone. */
  lemma DisabledForgetsUse(t: Tables, user: UserId, factor: Factor, now: int)
    requires !factor.PasskeyChallenge? && factor.user == user
    ensures Disabled(Consumed(t, factor, now), user) == Disabled(t, user)
  {
    assert Disabled(Consumed(t, factor, now), user).recovery == Disabled(t, user).recovery;
  }

  datatype LoginOutcome = Session(sid: SessionId) | MfaRequired(challenge: T.Jwt)

  datatype LoginError = RateLimited | InvalidCredentials

  datatype RouteError = Unauthorized | Unavailable | Conflict

  class AuthApi {
    const factors: MfaService
    const secret: string
    var accounts: map<UserId, Account>
    var passkeys: map<string, UserId>
    var challenges: map<string, Challenge>
    var sessions: map<SessionId, UserId>
    var events: seq<L.AuthEvent>

    constructor (factors: MfaService, secret: string)
      ensures this.factors == factors && this.secret == secret
      ensures Db() == State(map[], factors.State(), map[], map[], map[], [])
    {
      this.factors, this.secret := factors, secret;
      accounts, passkeys, challenges, sessions, events := map[], map[], map[], map[], [];
    }

    function Db(): State
      reads this, factors
    {
      State(accounts, factors.State(), passkeys, challenges, sessions, events)
    }

    /** `authenticate`: throttle, check, and either open a session or ask for the second factor. */
    method Authenticate(email: string, password: string, sid: SessionId, now: int, found: Option<UserId>)
      returns (r: Result<LoginOutcome, LoginError>)
      requires LooksUp(Db(), email, found)
      modifies this`sessions, this`events
      ensures Db() == AfterPassword(old(Db()), found, email, password, sid, now)
      ensures r == Err(RateLimited) <==> L.Throttled(old(events), L.NormalizeEmail(email), now)
      ensures r == Ok(Session(sid)) <==> PasswordOpens(old(Db()), found, email, password, now)
      ensures r.Ok? && r.value.MfaRequired? <==> PasswordOwes(old(Db()), found, email, password, now)
      ensures r.Ok? && r.value.MfaRequired? ==>
        r.value.challenge == T.IssueMfaChallenge(found.value, secret, now) && sessions == old(sessions)
      ensures r.Ok? ==> found.Some? && found.value in accounts && accounts[found.value].active
      ensures r.Ok? ==> accounts[found.value].password == password
      ensures r == Ok(Session(sid)) ==> sessions == old(sessions)[sid := found.value]
      ensures found.Some? && sid !in old(sessions) ==> OthersKept(old(Db()), Db(), found.value)
      ensures r.Ok? && r.value.Session? ==> r.value.sid == sid
      ensures r == Err(InvalidCredentials) <==>
        && !L.Throttled(old(events), L.NormalizeEmail(email), now)
        && !AsAttempt(old(Db()), found, email, password, now).accepted
      ensures r.Err? ==> sessions == old(sessions)
    {
      var normalized := L.NormalizeEmail(email);
      var attempts := L.FailedAttemptsSince(events, normalized, now - L.LOGIN_WINDOW);
      if attempts >= L.MAX_FAILED_LOGINS {
        return Err(RateLimited);
      }
      if found.None? || !PasswordMatches(Db(), found.value, password) || !accounts[found.value].active {
        events := events + [L.AuthEvent(normalized, L.LoginFailed, now)];
        return Err(InvalidCredentials);
      }
      var user := found.value;
      if IsMfaActive(factors.State(), user) {
        return Ok(MfaRequired(T.IssueMfaChallenge(user, secret, now)));
      }
      sessions := sessions[sid := user];
      events := events + [L.AuthEvent(normalized, L.LoginSucceeded, now)];
      return Ok(Session(sid));
    }

    /** The login route: a refused attempt answers with an error, so its transaction is rolled back. */
    method LoginRoute(email: string, password: string, sid: SessionId, now: int, found: Option<UserId>)
      returns (r: Result<LoginOutcome, LoginError>)
      requires LooksUp(Db(), email, found)
      modifies this`sessions, this`events
      ensures events == L.Settled(old(events), AsAttempt(old(Db()), found, email, password, now))
      ensures r == Ok(Session(sid)) <==> PasswordOpens(old(Db()), found, email, password, now)
      ensures r.Ok? ==> Db() == AfterPassword(old(Db()), found, email, password, sid, now)
      ensures r.Err? ==> Db() == old(Db())
      ensures r.Ok? ==> found.Some? && found.value in accounts && accounts[found.value].password == password
    {
      var savedSessions, savedEvents := sessions, events;
      r := Authenticate(email, password, sid, now, found);
      if r.Err? {
        sessions, events := savedSessions, savedEvents;
      }
    }

    /** `complete_mfa_login`. */
    method CompleteMfaLogin(user: UserId, sid: SessionId, now: int)
      requires user in accounts
      modifies this`sessions, this`events
      ensures Db() == SignedIn(old(Db()), user, sid, now)
    {
      sessions := sessions[sid := user];
      events := events + [L.AuthEvent(accounts[user].email, L.LoginSucceeded, now)];
    }

    /** `/auth/mfa/verify`: the challenge names the account; use its factor up, then open the session. */
    method Verify(challenge: T.Jwt, code: string, keyConfigured: bool, sid: SessionId, now: int)
      returns (r: Result<SessionId, RouteError>)
      modifies this`sessions, this`events, factors
      ensures var challenged := T.DecodeMfaChallenge(challenge, secret, now);
        && (challenged.None? ==> r == Err(Unauthorized) && Db() == old(Db()))
        && (challenged.Some? ==>
          && Db() == AfterVerify(old(Db()), factors.totp, challenged.value, code, keyConfigured, sid, now)
          && (r == Ok(sid) <==> FactorFor(old(Db()), factors.totp, challenged.value, code, keyConfigured, now).Some?)
          && (sid !in old(sessions) ==> OthersKept(old(Db()), Db(), challenged.value)))
    {
      var challenged := T.DecodeMfaChallenge(challenge, secret, now);
      if challenged.None? {
        return Err(Unauthorized);
      }
      var user := challenged.value;
      if user !in accounts || !accounts[user].active {
        return Err(Unauthorized);
      }
      var verified := factors.VerifyCodeForLogin(user, code, keyConfigured, now);
      if verified.Err? {
        return Err(if verified.error == NotConfigured then Unavailable else Unauthorized);
      }
      CompleteMfaLogin(user, sid, now);
      return Ok(sid);
    }

    /** `/auth/mfa/disable`: the password and a current code, which is used up before the enrolment goes. */
    method Disable(user: UserId, password: string, code: string, keyConfigured: bool, now: int)
      returns (r: Result<(), RouteError>)
      requires AccountActive(Db(), user)
      modifies factors
      ensures Db() == AfterDisable(old(Db()), factors.totp, user, password, code, keyConfigured, now)
      ensures r.Ok? <==>
        && PasswordMatches(old(Db()), user, password)
        && FactorFor(old(Db()), factors.totp, user, code, keyConfigured, now).Some?
      ensures r.Ok? ==> old(accounts)[user].password == password
      ensures r.Ok? ==> user !in factors.mfa && RowsOf(factors.State(), user) == {}
      ensures OthersKept(old(Db()), Db(), user)
    {
      DisablingKeepsOthers(Db(), factors.totp, user, password, code, keyConfigured, now);
      if accounts[user].password != password {
        return Err(Unauthorized);
      }
      var verified := factors.VerifyCodeForLogin(user, code, keyConfigured, now);
      if verified.Err? {
        return Err(
          match verified.error case NotConfigured => Unavailable case NotEnrolled => Conflict case _ => Unauthorized);
      }
      var _ := factors.DisableMfa(user);
      return Ok(());
    }

    /** The account row, and what its foreign keys take with it. */
    method RemoveAccount(user: UserId)
      modifies this, factors
      ensures Db() == Without(old(Db()), user)
    {
      accounts := accounts - {user};
      factors.mfa := factors.mfa - {user};
      factors.DropRecoveryCodes(user);
      passkeys := map c | c in passkeys && passkeys[c] != user :: passkeys[c];
      challenges := map c | c in challenges && challenges[c].user != Some(user) :: challenges[c];
      sessions := map sid | sid in sessions && sessions[sid] != user :: sessions[sid];
    }

    /**
     * `/auth/me/delete`, as far as these tables go: the acknowledgement, the password, a current code when MFA
     * is on, and then the account and everything that hangs off it.
     */
    method DeleteOwnAccount(
      user: UserId, password: string, code: Option<string>, acknowledged: bool, keyConfigured: bool, now: int)
      returns (r: Result<(), RouteError>)
      requires AccountActive(Db(), user)
      modifies this, factors
      ensures r.Ok? <==> acknowledged && DeletionFactor(old(Db()), factors.totp, user, password, code, keyConfigured, now).Some?
      ensures Db() == if r.Ok? then Without(old(Db()), user) else old(Db())
      ensures r.Ok? ==> acknowledged && old(accounts)[user].password == password
      ensures r.Ok? ==> user !in accounts && forall x :: x in sessions ==> sessions[x] != user
      ensures OthersKept(old(Db()), Db(), user)
    {
      DeletionKeepsOthers(Db(), user);
      if !acknowledged || accounts[user].password != password {
        return Err(Unauthorized);
      }
      if IsMfaActive(factors.State(), user) {
        if code.None? {
          return Err(Unauthorized);
        }
        var verified := factors.VerifyCodeForLogin(user, code.value, keyConfigured, now);
        if verified.Err? {
          return Err(Unauthorized);
        }
        DisabledForgetsUse(old(factors.State()), user, verified.value, now);
      }
      RemoveAccount(user);
      return Ok(());
    }

    /**
     * `/auth/passkeys/login/complete`: the challenge is deleted first, and a refusal later on rolls that
     * back with the rest of the request.
     */
    method LoginComplete(challenge: string, credential: string, verified: bool, sid: SessionId, now: int)
      returns (r: Result<SessionId, RouteError>)
      modifies this`challenges, this`sessions, this`events
      ensures Db() == AfterPasskey(old(Db()), challenge, credential, verified, sid, now)
      ensures r == Ok(sid) <==> PasskeyOpens(old(Db()), challenge, credential, verified, now)
      ensures r.Ok? ==>
        && verified && credential in passkeys && passkeys[credential] in accounts && accounts[passkeys[credential]].active
        && challenge in old(challenges) && now < old(challenges)[challenge].expiresAt
        && challenges == old(challenges) - {challenge} && sessions == old(sessions)[sid := passkeys[credential]]
      ensures credential in passkeys && sid !in old(sessions) ==> OthersKept(old(Db()), Db(), passkeys[credential])
    {
      if challenge !in challenges || challenges[challenge].expiresAt <= now {
        return Err(Unauthorized);
      }
      var saved := challenges;
      challenges := challenges - {challenge};
      if credential !in passkeys {
        challenges := saved;
        return Err(Unauthorized);
      }
      var user := passkeys[credential];
      if user !in accounts || !accounts[user].active || !verified {
        challenges := saved;
        return Err(Unauthorized);
      }
      CompleteMfaLogin(user, sid, now);
      return Ok(sid);
    }
  }

}
