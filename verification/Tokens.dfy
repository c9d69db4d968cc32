/** Access tokens, MFA challenges and refresh tokens. Times are seconds. */
module Tokens {
  import opened Wrappers

  type UserId = nat
  type SessionId = nat

  /** A refresh token as the client holds it: opaque, and minted fresh every time. */
  type Token = nat

  /** SHA-256 as an injective function. */
  datatype Digest = Sha256(token: Token)

  const ACCESS_TOKEN_TTL := 15 * 60
  const MFA_CHALLENGE_TTL := 5 * 60
  const REFRESH_TOKEN_TTL := 30 * 24 * 60 * 60

  datatype TokenType = Access | MfaChallenge

  /** A signed token: its claims and the key that signed it. */
  datatype Jwt = Jwt(typ: TokenType, sub: UserId, sid: Option<SessionId>, exp: int, key: string)

  function IssueAccessToken(user: UserId, session: SessionId, secret: string, now: int): Jwt {
    Jwt(Access, user, Some(session), now + ACCESS_TOKEN_TTL, secret)
  }

  function IssueMfaChallenge(user: UserId, secret: string, now: int): Jwt {
    Jwt(MfaChallenge, user, None, now + MFA_CHALLENGE_TTL, secret)
  }

  /** Signature and expiry, as the JWT library checks them. */
  predicate Verifies(token: Jwt, secret: string, now: int) {
    token.key == secret && token.exp > now
  }

  function DecodeAccessToken(token: Jwt, secret: string, now: int): Option<(UserId, SessionId)> {
    if Verifies(token, secret, now) && token.sid.Some? && token.typ == Access then Some((token.sub, token.sid.value))
    else None
  }

  function DecodeMfaChallenge(token: Jwt, secret: string, now: int): Option<UserId> {
    if Verifies(token, secret, now) && token.typ == MfaChallenge then Some(token.sub) else None
  }

  /** Before `until` this token opens the API as this user's session, and from then on not at all. */
  ghost predicate GoodFor(token: Jwt, secret: string, user: UserId, session: SessionId, until: int) {
    forall t :: DecodeAccessToken(token, secret, t) == if t < until then Some((user, session)) else None
  }

  /** Each kind of token decodes as what it was issued for while it lasts, and never as the other kind. */
  lemma TypesStayApart(user: UserId, session: SessionId, secret: string, issued: int, now: int)
    ensures var access, challenge := IssueAccessToken(user, session, secret, issued), IssueMfaChallenge(user, secret, issued);
      && DecodeMfaChallenge(access, secret, now).None?
      && DecodeAccessToken(challenge, secret, now).None?
      && (DecodeAccessToken(access, secret, now) == Some((user, session)) <==> now < issued + 15 * 60)
      && (DecodeMfaChallenge(challenge, secret, now) == Some(user) <==> now < issued + 5 * 60)
  {
  }

  /** A token opens the API for whom it names exactly if it is an access token this server signed and it has not run out. */
  lemma AccessDecodesIff(token: Jwt, secret: string, now: int, user: UserId, session: SessionId)
    ensures DecodeAccessToken(token, secret, now) == Some((user, session))
      <==> token == Jwt(Access, user, Some(session), token.exp, secret) && now < token.exp
    ensures DecodeMfaChallenge(token, secret, now) == Some(user)
      <==> token == Jwt(MfaChallenge, user, token.sid, token.exp, secret) && now < token.exp
  {
  }

}
