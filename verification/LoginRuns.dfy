/** Whole runs of the sign-in routes: which factor paid for which session. */
module LoginRuns {
  import opened Wrappers
  import opened Mfa
  import opened Logins
  import T = Tokens

  /**
   * One entry per session opened, per factor used up, and per password that earned a challenge or a deletion: which factor
   * if any, which session if any, for whom, whether MFA was active for them just then, when, and on what showing.
   */
  datatype Use = Use(
    factor: Option<Factor>, session: Option<SessionId>, user: UserId, mfaActive: bool, at: int, shown: Showing)

  /** The password presented and the account's own at that moment; a code; or what checking an assertion said. */
  datatype Showing = Password(presented: string, stored: string) | Code | Assertion(verified: bool)

  /**
   * The tables, the log, every secret, recovery digest and passkey challenge ever generated, every session id
   * ever used, and every MFA challenge ever handed out. `key` signs tokens.
   */
  datatype World = World(
    s: State, log: seq<Use>, secrets: set<Secret>, digests: set<CodeDigest>, minted: set<string>,
    sessionIds: set<SessionId>, handed: set<T.Jwt>, key: string)

  datatype Step =
    | PutAccount(user: UserId, account: Account)
    | PasswordLogin(found: Option<UserId>, email: string, password: string, sid: SessionId, now: int)
    | VerifyMfa(challenge: T.Jwt, code: string, keyConfigured: bool, sid: SessionId, now: int)
    | Setup(user: UserId, secret: Secret, digests: set<CodeDigest>)
    | Confirm(user: UserId, code: string, keyConfigured: bool, now: int)
    | Disable(user: UserId, password: string, code: string, keyConfigured: bool, now: int)
    | StoreChallenge(nonce: string, holder: Option<UserId>, expiresAt: int)
    | RegisterPasskey(nonce: string, credential: string, user: UserId, now: int)
    | PasskeyLogin(nonce: string, credential: string, verified: bool, sid: SessionId, now: int)
    | DeleteAccount(user: UserId, password: string, mfaCode: Option<string>, keyConfigured: bool, now: int)

  function Empty(key: string): World {
    World(State(map[], Tables(map[], map[]), map[], map[], map[], []), [], {}, {}, {}, {}, {}, key)
  }

  /** A challenge this server signed and that has not run out: nobody else can sign one. */
  predicate Answers(w: World, challenge: T.Jwt, now: int) {
    challenge in w.handed && T.DecodeMfaChallenge(challenge, w.key, now) == Some(challenge.sub)
  }

  /**
   * A step that is refused changes nothing but the limiter's trail. Account ids, session ids, secrets,
   * recovery codes and challenges are fresh when they are generated.
   */
  function Apply(w: World, totp: Totp, step: Step): World {
    var s := w.s;
    match step
    case PutAccount(user, account) => w.(s := s.(accounts := s.accounts[user := account]))
    case PasswordLogin(found, email, password, sid, now) =>
      if !LooksUp(s, email, found) || sid in w.sessionIds then w
      else if PasswordOpens(s, found, email, password, now) then
        w.(
          s := AfterPassword(s, found, email, password, sid, now),
          log := w.log + [Use(None, Some(sid), found.value, IsMfaActive(s.tables, found.value), now,
            Password(password, s.accounts[found.value].password))],
          sessionIds := w.sessionIds + {sid})
      else if PasswordOwes(s, found, email, password, now) then
        w.(
          s := AfterPassword(s, found, email, password, sid, now),
          log := w.log + [Use(None, None, found.value, true, now, Password(password, s.accounts[found.value].password))],
          handed := w.handed + {T.IssueMfaChallenge(found.value, w.key, now)})
      else w.(s := AfterPassword(s, found, email, password, sid, now))
    case VerifyMfa(challenge, code, keyConfigured, sid, now) =>
      var user := challenge.sub;
      var factor := FactorFor(s, totp, user, code, keyConfigured, now);
      if factor.None? || sid in w.sessionIds || !Answers(w, challenge, now) then w
      else w.(
        s := AfterVerify(s, totp, user, code, keyConfigured, sid, now),
        log := w.log + [Use(factor, Some(sid), user, IsMfaActive(s.tables, user), now, Code)],
        sessionIds := w.sessionIds + {sid})
    case Setup(user, secret, digests) =>
      if !AccountActive(s, user) || IsMfaActive(s.tables, user) || secret in w.secrets || !(digests !! w.digests)
        || |digests| != RECOVERY_CODE_COUNT
      then w
      else w.(
        s := s.(tables := Started(s.tables, user, secret, digests)),
        secrets := w.secrets + {secret}, digests := w.digests + digests)
    case Confirm(user, code, keyConfigured, now) =>
      if user !in s.tables.mfa || s.tables.mfa[user].confirmedAt.Some? || !keyConfigured then w
      else
        var record, step := s.tables.mfa[user], MatchingCounter(totp, s.tables.mfa[user].secret, code, now);
        if step.None? then w
        else w.(
          s := s.(tables := s.tables.(mfa := s.tables.mfa[user := UserMfa(record.secret, Some(now), step)])),
          log := w.log + [Use(Some(TotpStep(user, record.secret, step.value)), None, user, false, now, Code)])
    case Disable(user, password, code, keyConfigured, now) =>
      var factor := FactorFor(s, totp, user, code, keyConfigured, now);
      if factor.None? || !PasswordMatches(s, user, password) then w
      else w.(
        s := AfterDisable(s, totp, user, password, code, keyConfigured, now),
        log := w.log + [Use(factor, None, user, true, now, Password(password, s.accounts[user].password))])
    case StoreChallenge(nonce, holder, expiresAt) =>
      if nonce in w.minted then w
      else w.(s := s.(challenges := s.challenges[nonce := Challenge(holder, expiresAt)]), minted := w.minted + {nonce})
    case RegisterPasskey(nonce, credential, user, now) =>
      if nonce !in s.challenges || s.challenges[nonce].expiresAt <= now || credential in s.passkeys then w
      else w.(
        s := s.(challenges := s.challenges - {nonce}, passkeys := s.passkeys[credential := user]),
        log := w.log + [Use(Some(PasskeyChallenge(nonce)), None, user, false, now, Assertion(true))])
    case PasskeyLogin(nonce, credential, verified, sid, now) =>
      if !PasskeyOpens(s, nonce, credential, verified, now) || sid in w.sessionIds then w
      else w.(
        s := AfterPasskey(s, nonce, credential, verified, sid, now),
        log := w.log + [Use(Some(PasskeyChallenge(nonce)), Some(sid), s.passkeys[credential],
          IsMfaActive(s.tables, s.passkeys[credential]), now, Assertion(verified))],
        sessionIds := w.sessionIds + {sid})
    case DeleteAccount(user, password, code, keyConfigured, now) =>
      var factor := DeletionFactor(s, totp, user, password, code, keyConfigured, now);
      if factor.None? then w
      else w.(
        s := Without(s, user),
        log := w.log + [Use(factor.value, None, user, factor.value.Some?, now, Password(password, s.accounts[user].password))])
  }

  function Run(w: World, totp: Totp, steps: seq<Step>): World {
    if steps == [] then w else Apply(Run(w, totp, steps[..|steps| - 1]), totp, steps[|steps| - 1])
  }

  // ----- the invariant -----

  predicate StepGone(secrets: set<Secret>, t: Tables, user: UserId, secret: Secret, step: int) {
    && secret in secrets
    && (user in t.mfa && t.mfa[user].secret == secret ==>
      t.mfa[user].lastUsedCounter.Some? && step <= t.mfa[user].lastUsedCounter.value)
  }

  predicate CodeGone(digests: set<CodeDigest>, t: Tables, user: UserId, digest: CodeDigest) {
    digest in digests && ((user, digest) in t.recovery ==> t.recovery[(user, digest)].Some?)
  }

  /** The tables remember that this factor is gone. */
  predicate Spent(w: World, factor: Factor) {
    match factor
    case TotpStep(user, secret, step) => StepGone(w.secrets, w.s.tables, user, secret, step)
    case RecoveryCode(user, digest) => CodeGone(w.digests, w.s.tables, user, digest)
    case PasskeyChallenge(nonce) => nonce in w.minted && nonce !in w.s.challenges
  }

  /** The factor could still be used up. */
  predicate Available(w: World, factor: Factor) {
    match factor
    case TotpStep(user, secret, step) =>
      && user in w.s.tables.mfa && w.s.tables.mfa[user].secret == secret
      && (w.s.tables.mfa[user].lastUsedCounter.None? || step > w.s.tables.mfa[user].lastUsedCounter.value)
    case RecoveryCode(user, digest) => (user, digest) in w.s.tables.recovery && w.s.tables.recovery[(user, digest)].None?
    case PasskeyChallenge(challenge) => challenge in w.s.challenges
  }

  /** Two uses of one enrolment's TOTP come in the order of their steps. */
  predicate StepsInOrder(a: Use, b: Use) {
    a.factor.Some? && b.factor.Some? && a.factor.value.TotpStep? && b.factor.value.TotpStep?
    && a.factor.value.user == b.factor.value.user && a.factor.value.secret == b.factor.value.secret
    ==> a.factor.value.step < b.factor.value.step
  }

  /**
   * A use is paid for when MFA is on, with the account's own factor, whose TOTP step was within the window. What a
   * password was taken for was the account's own password, and what an assertion was taken for had been verified.
   */
  predicate WellFormed(u: Use) {
    && (u.factor.None? ==> u.shown.Password?)
    && (u.shown.Password? ==> u.shown.presented == u.shown.stored)
    && (u.shown.Assertion? ==> u.shown.verified)
    && (u.factor.Some? && u.factor.value.PasskeyChallenge? <==> u.shown.Assertion?)
    && (u.session.Some? && u.mfaActive ==> u.factor.Some?)
    && (u.factor.Some? && !u.factor.value.PasskeyChallenge? ==> u.factor.value.user == u.user)
    && (u.factor.Some? && u.factor.value.TotpStep? ==> InWindow(u.factor.value.step, u.at))
  }

  ghost predicate LogSound(w: World) {
    && (forall i :: 0 <= i < |w.log| ==> WellFormed(w.log[i]))
    && (forall i :: 0 <= i < |w.log| && w.log[i].factor.Some? ==> Spent(w, w.log[i].factor.value))
    && forall i, j :: 0 <= i < j < |w.log| ==>
      && (w.log[j].factor.Some? ==> w.log[i].factor != w.log[j].factor)
      && StepsInOrder(w.log[i], w.log[j])
  }

  /** What is in the tables was generated once, and an unconfirmed enrolment has used nothing. */
  ghost predicate Generated(w: World) {
    && (forall u :: u in w.s.tables.mfa ==> w.s.tables.mfa[u].secret in w.secrets)
    && (forall u :: u in w.s.tables.mfa && w.s.tables.mfa[u].confirmedAt.None? ==> w.s.tables.mfa[u].lastUsedCounter.None?)
    && (forall k :: k in w.s.tables.recovery ==> k.1 in w.digests)
    && w.s.challenges.Keys <= w.minted
  }

  /** Every enrolment has exactly ten recovery codes, used ones included; without an enrolment there are none. */
  ghost predicate TenCodes(t: Tables) {
    && (forall u :: u in t.mfa ==> |RowsOf(t, u)| == RECOVERY_CODE_COUNT)
    && forall k :: k in t.recovery ==> k.0 in t.mfa
  }

  /** Entry `i` of the log opened this session. */
  predicate OpenedAt(w: World, i: nat, sid: SessionId) {
    i < |w.log| && w.log[i].session == Some(sid)
  }

  /** Each open session was opened once, by its own account. */
  ghost predicate SessionsLogged(w: World) {
    && (forall sid :: sid in w.s.sessions ==> sid in w.sessionIds)
    && (forall sid :: sid in w.sessionIds ==> exists i: nat :: OpenedAt(w, i, sid))
    && (forall i: nat, sid :: OpenedAt(w, i, sid) ==>
      sid in w.sessionIds && (sid in w.s.sessions ==> w.s.sessions[sid] == w.log[i].user))
    && forall i: nat, j: nat, sid :: OpenedAt(w, i, sid) && OpenedAt(w, j, sid) ==> i == j
  }

  /** Entry `j` is the account's own password, for which it was handed a challenge. */
  predicate Proves(log: seq<Use>, j: nat, user: UserId) {
    && j < |log| && log[j].factor.None? && log[j].session.None? && log[j].user == user
    && log[j].mfaActive && log[j].shown.Password? && log[j].shown.presented == log[j].shown.stored
  }

  /** Entry `i` answers a challenge. */
  predicate AnswersAt(log: seq<Use>, i: nat) {
    i < |log| && log[i].session.Some? && log[i].factor.Some? && !log[i].factor.value.PasskeyChallenge?
  }

  ghost predicate HandedForPassword(log: seq<Use>, c: T.Jwt) {
    exists j: nat :: Proves(log, j, c.sub) && c.exp == log[j].at + T.MFA_CHALLENGE_TTL
  }

  ghost predicate FollowsPassword(log: seq<Use>, i: nat)
    requires i < |log|
  {
    exists j: nat :: j < i && Proves(log, j, log[i].user) && log[i].at < log[j].at + T.MFA_CHALLENGE_TTL
  }

  /** Every challenge was handed out for a password, and every answer followed one in time. */
  ghost predicate AnswersFollowPasswords(w: World) {
    && (forall c :: c in w.handed ==> HandedForPassword(w.log, c))
    && forall i: nat :: AnswersAt(w.log, i) ==> FollowsPassword(w.log, i)
  }

  ghost predicate Logged(log: seq<Use>, factor: Factor) {
    exists i :: 0 <= i < |log| && log[i].factor == Some(factor)
  }

  /** A recovery code's row says used only if something was let in or off for it. */
  ghost predicate UsedCodesLogged(w: World) {
    forall k :: k in w.s.tables.recovery && w.s.tables.recovery[k].Some? ==> Logged(w.log, RecoveryCode(k.0, k.1))
  }

  ghost predicate Sound(w: World) {
    && LogSound(w) && Generated(w) && TenCodes(w.s.tables)
    && SessionsLogged(w) && AnswersFollowPasswords(w) && UsedCodesLogged(w)
  }

  // ----- what is gone stays gone -----

  /** An accepted code uses up something that was still there to use. */
  lemma AcceptedIsAvailable(w: World, totp: Totp, user: UserId, code: string, keyConfigured: bool, now: int)
    requires Generated(w)
    ensures var factor := FactorFor(w.s, totp, user, code, keyConfigured, now);
      factor.Some? ==>
        && IsMfaActive(w.s.tables, user)
        && !factor.value.PasskeyChallenge? && factor.value.user == user
        && Available(w, factor.value)
        && (factor.value.TotpStep? ==> factor.value.secret in w.secrets && InWindow(factor.value.step, now))
        && (factor.value.RecoveryCode? ==> factor.value.digest in w.digests)
  {
  }

  /** The entry a step adds to the log, if it adds one. */
  function Added(w: World, totp: Totp, step: Step): Option<Use> {
    var log := Apply(w, totp, step).log;
    if |log| > |w.log| then Some(log[|w.log|]) else None
  }

  /** What a step does to the enrolments and recovery codes. */
  datatype Change =
    | Nothing
    | Uses(factor: Factor, at: int)
    | Restarts(user: UserId, secret: Secret, digests: set<CodeDigest>)
    | Confirms(user: UserId, step: int, at: int)
    | Removes(user: UserId)

  function Changed(t: Tables, change: Change): Tables {
    match change
    case Nothing => t
    case Uses(factor, at) => Consumed(t, factor, at)
    case Restarts(user, secret, digests) => Started(t, user, secret, digests)
    case Confirms(user, step, at) =>
      if user !in t.mfa then t
      else t.(mfa := t.mfa[user := UserMfa(t.mfa[user].secret, Some(at), Some(step))])
    case Removes(user) => Disabled(t, user)
  }

  /** What makes a change possible at all. */
  predicate Possible(w: World, change: Change) {
    match change
    case Nothing => true
    case Uses(factor, at) => !factor.PasskeyChallenge? && Available(w, factor)
      && IsMfaActive(w.s.tables, factor.user)
    case Restarts(user, secret, digests) =>
      secret !in w.secrets && digests !! w.digests && |digests| == RECOVERY_CODE_COUNT
    case Confirms(user, step, at) => user in w.s.tables.mfa && w.s.tables.mfa[user].confirmedAt.None?
    case Removes(user) => true
  }

  function ChangeOf(w: World, totp: Totp, step: Step): Change {
    if Apply(w, totp, step).s.tables == w.s.tables then Nothing
    else match step
      case VerifyMfa(challenge, code, keyConfigured, sid, now) =>
        var factor := FactorFor(w.s, totp, challenge.sub, code, keyConfigured, now);
        if factor.Some? then Uses(factor.value, now) else Nothing
      case Setup(user, secret, digests) => Restarts(user, secret, digests)
      case Confirm(user, code, keyConfigured, now) =>
        if user !in w.s.tables.mfa then Nothing
        else
          var step := MatchingCounter(totp, w.s.tables.mfa[user].secret, code, now);
          if step.Some? then Confirms(user, step.value, now) else Nothing
      case Disable(user, _, _, _, _) => Removes(user)
      case DeleteAccount(user, _, _, _, _) => Removes(user)
      case _ => Nothing
  }

  lemma StepChanges(w: World, totp: Totp, step: Step)
    requires Generated(w)
    ensures var change, w' := ChangeOf(w, totp, step), Apply(w, totp, step);
      && w'.s.tables == Changed(w.s.tables, change)
      && Possible(w, change)
      && (change.Uses? ==> Added(w, totp, step).Some? && Added(w, totp, step).value.factor == Some(change.factor))
      && (change.Restarts? ==> w'.secrets == w.secrets + {change.secret} && w'.digests == w.digests + change.digests)
      && w.secrets <= w'.secrets && w.digests <= w'.digests
  {
    match step
    case VerifyMfa(challenge, code, keyConfigured, sid, now) => AcceptedIsAvailable(w, totp, challenge.sub, code, keyConfigured, now);
    case Disable(user, password, code, keyConfigured, now) =>
      AcceptedIsAvailable(w, totp, user, code, keyConfigured, now);
      var factor := FactorFor(w.s, totp, user, code, keyConfigured, now);
      if factor.Some? {
        DisabledForgetsUse(w.s.tables, user, factor.value, now);
      }
    case _ =>
  }

  /** A step stays behind its enrolment's counter. */
  lemma StepStaysGone(w: World, change: Change, user: UserId, secret: Secret, step: int)
    requires Generated(w) && Possible(w, change) && StepGone(w.secrets, w.s.tables, user, secret, step)
    ensures StepGone(w.secrets, Changed(w.s.tables, change), user, secret, step)
  {
  }

  /** A code's row stays used as long as it is there. */
  lemma CodeStaysGone(w: World, change: Change, user: UserId, digest: CodeDigest)
    requires Possible(w, change) && CodeGone(w.digests, w.s.tables, user, digest)
    ensures CodeGone(w.digests, Changed(w.s.tables, change), user, digest)
  {
  }

  lemma ChallengesStayGone(w: World, totp: Totp, step: Step, nonce: string)
    requires nonce in w.minted && nonce !in w.s.challenges
    ensures nonce in Apply(w, totp, step).minted && nonce !in Apply(w, totp, step).s.challenges
  {
  }

  /** A factor the tables remember as used is never forgotten, whatever happens next. */
  lemma SpentForGood(w: World, totp: Totp, step: Step, f: Factor)
    requires Generated(w) && Spent(w, f)
    ensures Spent(Apply(w, totp, step), f)
  {
    StepChanges(w, totp, step);
    match f
    case TotpStep(user, secret, k) => StepStaysGone(w, ChangeOf(w, totp, step), user, secret, k);
    case RecoveryCode(user, digest) => CodeStaysGone(w, ChangeOf(w, totp, step), user, digest);
    case PasskeyChallenge(nonce) => ChallengesStayGone(w, totp, step, nonce);
  }

  lemma AvailableIsNotSpent(w: World, f: Factor)
    requires Available(w, f)
    ensures !Spent(w, f)
  {
  }

  /** Logging the use of a factor that was available and now is spent. */
  lemma LogOneUse(w: World, w': World, u: Use)
    requires LogSound(w) && w'.log == w.log + [u] && WellFormed(u)
    requires u.factor.Some? ==> Available(w, u.factor.value) && Spent(w', u.factor.value)
    requires forall f :: Spent(w, f) ==> Spent(w', f)
    ensures LogSound(w')
  {
    forall i | 0 <= i < |w.log|
      ensures u.factor.Some? ==> w.log[i].factor != u.factor
      ensures StepsInOrder(w.log[i], u)
    {
      if w.log[i].factor.Some? {
        assert Spent(w, w.log[i].factor.value);
        if u.factor.Some? {
          AvailableIsNotSpent(w, u.factor.value);
        }
      }
    }
  }

  lemma StepLogs(w: World, totp: Totp, step: Step)
    requires Generated(w)
    ensures var u, w' := Added(w, totp, step), Apply(w, totp, step);
      && (u.None? ==> w'.log == w.log)
      && (u.Some? ==> w'.log == w.log + [u.value] && WellFormed(u.value))
      && (u.Some? && u.value.factor.Some? ==> Available(w, u.value.factor.value) && Spent(w', u.value.factor.value))
  {
    match step
    case VerifyMfa(challenge, code, keyConfigured, sid, now) => AcceptedIsAvailable(w, totp, challenge.sub, code, keyConfigured, now);
    case Disable(user, password, code, keyConfigured, now) => AcceptedIsAvailable(w, totp, user, code, keyConfigured, now);
    case DeleteAccount(user, password, code, keyConfigured, now) =>
      if code.Some? {
        AcceptedIsAvailable(w, totp, user, code.value, keyConfigured, now);
      }
    case _ =>
  }

  lemma StepKeepsLogSound(w: World, totp: Totp, step: Step)
    requires Generated(w) && LogSound(w)
    ensures LogSound(Apply(w, totp, step))
  {
    var w' := Apply(w, totp, step);
    StepLogs(w, totp, step);
    forall f | Spent(w, f) ensures Spent(w', f) {
      SpentForGood(w, totp, step, f);
    }
    var u := Added(w, totp, step);
    if u.Some? {
      LogOneUse(w, w', u.value);
    }
  }

  lemma ChangeKeepsGenerated(w: World, change: Change)
    requires Generated(w) && Possible(w, change)
    ensures var t' := Changed(w.s.tables, change);
      && (forall u :: u in t'.mfa ==> t'.mfa[u].secret in w.secrets + if change.Restarts? then {change.secret} else {})
      && (forall u :: u in t'.mfa && t'.mfa[u].confirmedAt.None? ==> t'.mfa[u].lastUsedCounter.None?)
      && (forall k :: k in t'.recovery ==> k.1 in w.digests + if change.Restarts? then change.digests else {})
  {
  }

  lemma ChallengesStayMinted(w: World, totp: Totp, step: Step)
    requires w.s.challenges.Keys <= w.minted
    ensures Apply(w, totp, step).s.challenges.Keys <= Apply(w, totp, step).minted
  {
  }

  lemma StepKeepsGenerated(w: World, totp: Totp, step: Step)
    requires Generated(w)
    ensures Generated(Apply(w, totp, step))
  {
    StepChanges(w, totp, step);
    ChangeKeepsGenerated(w, ChangeOf(w, totp, step));
    ChallengesStayMinted(w, totp, step);
  }

  /** A setup never touches an active enrolment, and a confirmation takes a code of one of the steps around now. */
  lemma EnrolmentsAreGuarded(w: World, totp: Totp, step: Step)
    requires step.Setup? || step.Confirm?
    ensures IsMfaActive(w.s.tables, step.user) ==> Apply(w, totp, step) == w
    ensures step.Confirm? && Apply(w, totp, step) != w ==>
      && step.user in w.s.tables.mfa
      && exists k :: step.now / 30 - 1 <= k <= step.now / 30 + 1 && totp(w.s.tables.mfa[step.user].secret, k) == Cleaned(step.code)
  {
  }

  // ----- ten codes -----

  function Keys(user: UserId, digests: set<CodeDigest>): set<(UserId, CodeDigest)> {
    set d | d in digests :: (user, d)
  }

  lemma {:induction false} OneKeyPerDigest(user: UserId, digests: set<CodeDigest>)
    ensures |Keys(user, digests)| == |digests|
  {
    if d :| d in digests {
      OneKeyPerDigest(user, digests - {d});
      assert Keys(user, digests) == Keys(user, digests - {d}) + {(user, d)};
    }
  }

  lemma OneRowPerDigest(t: Tables, user: UserId, secret: Secret, digests: set<CodeDigest>)
    ensures RowsOf(Started(t, user, secret, digests), user) == Keys(user, digests)
    ensures |Keys(user, digests)| == |digests|
  {
    OneKeyPerDigest(user, digests);
  }

  /** After a setup the account's codes are the new ones and no others; after a disable there are none. */
  lemma NoCodeSurvives(t: Tables, user: UserId, secret: Secret, digests: set<CodeDigest>)
    ensures forall k :: k in RowsOf(Started(t, user, secret, digests), user) <==> k.0 == user && k.1 in digests
    ensures forall k :: k in RowsOf(Started(t, user, secret, digests), user) ==>
      Started(t, user, secret, digests).recovery[k].None?
    ensures RowsOf(Disabled(t, user), user) == {}
    ensures forall other :: other != user ==>
      && RowsOf(Started(t, user, secret, digests), other) == RowsOf(t, other)
      && RowsOf(Disabled(t, user), other) == RowsOf(t, other)
  {
    OneRowPerDigest(t, user, secret, digests);
    forall other | other != user
      ensures RowsOf(Started(t, user, secret, digests), other) == RowsOf(t, other)
      ensures RowsOf(Disabled(t, user), other) == RowsOf(t, other)
    {
    }
  }

  lemma SameKeysSameCodes(t: Tables, t': Tables)
    requires TenCodes(t) && t'.recovery.Keys == t.recovery.Keys && t'.mfa.Keys == t.mfa.Keys
    ensures TenCodes(t')
  {
    forall u ensures RowsOf(t', u) == RowsOf(t, u) {
    }
  }

  lemma SetupKeepsTenCodes(t: Tables, user: UserId, secret: Secret, digests: set<CodeDigest>)
    requires TenCodes(t) && |digests| == RECOVERY_CODE_COUNT
    ensures TenCodes(Started(t, user, secret, digests))
  {
    NoCodeSurvives(t, user, secret, digests);
    OneRowPerDigest(t, user, secret, digests);
  }

  lemma DisableKeepsTenCodes(t: Tables, user: UserId)
    requires TenCodes(t)
    ensures TenCodes(Disabled(t, user))
  {
    NoCodeSurvives(t, user, 0, {});
  }

  lemma ChangeKeepsTenCodes(w: World, change: Change)
    requires Possible(w, change) && TenCodes(w.s.tables)
    ensures TenCodes(Changed(w.s.tables, change))
  {
    match change
    case Restarts(user, secret, digests) => SetupKeepsTenCodes(w.s.tables, user, secret, digests);
    case Removes(user) => DisableKeepsTenCodes(w.s.tables, user);
    case _ => SameKeysSameCodes(w.s.tables, Changed(w.s.tables, change));
  }

  lemma StepKeepsTenCodes(w: World, totp: Totp, step: Step)
    requires Generated(w) && TenCodes(w.s.tables)
    ensures TenCodes(Apply(w, totp, step).s.tables)
  {
    StepChanges(w, totp, step);
    ChangeKeepsTenCodes(w, ChangeOf(w, totp, step));
  }

  // ----- sessions, challenges and used codes are on record -----

  /** What a step adds to the sessions: at most the one its log entry names, for that entry's account. */
  lemma StepOpens(w: World, totp: Totp, step: Step)
    requires SessionsLogged(w)
    ensures var u, w' := Added(w, totp, step), Apply(w, totp, step);
      && w'.sessionIds == w.sessionIds + (if u.Some? && u.value.session.Some? then {u.value.session.value} else {})
      && (u.Some? && u.value.session.Some? ==> u.value.session.value !in w.sessionIds)
      && forall sid :: sid in w'.s.sessions ==>
        || (sid in w.s.sessions && w'.s.sessions[sid] == w.s.sessions[sid])
        || (u.Some? && u.value.session == Some(sid) && w'.s.sessions[sid] == u.value.user)
  {
  }

  lemma StepKeepsSessionsLogged(w: World, totp: Totp, step: Step)
    requires SessionsLogged(w) && Generated(w)
    ensures SessionsLogged(Apply(w, totp, step))
  {
    var w' := Apply(w, totp, step);
    StepLogs(w, totp, step);
    StepOpens(w, totp, step);
    forall sid | sid in w'.sessionIds ensures exists i: nat :: OpenedAt(w', i, sid) {
      if sid in w.sessionIds {
        var i: nat :| OpenedAt(w, i, sid);
        assert OpenedAt(w', i, sid);
      } else {
        assert OpenedAt(w', |w.log|, sid);
      }
    }
    forall i: nat, sid | OpenedAt(w', i, sid)
      ensures i < |w.log| ==> OpenedAt(w, i, sid)
      ensures i >= |w.log| ==> i == |w.log| && sid !in w.sessionIds
    {
    }
  }

  /** The password entry a challenge was handed out for, or none is handed out. */
  lemma StepHands(w: World, totp: Totp, step: Step, c: T.Jwt)
    requires c in Apply(w, totp, step).handed && c !in w.handed
    ensures var u := Added(w, totp, step);
      && u.Some? && u.value.factor.None? && u.value.session.None? && u.value.user == c.sub
      && u.value.mfaActive && u.value.shown.Password? && u.value.shown.presented == u.value.shown.stored
      && c.exp == u.value.at + T.MFA_CHALLENGE_TTL
  {
  }

  /** A step that opens a session for a code or a recovery code answers a challenge in time. */
  lemma StepAnswers(w: World, totp: Totp, step: Step)
    requires var u := Added(w, totp, step);
      u.Some? && u.value.session.Some? && u.value.factor.Some? && !u.value.factor.value.PasskeyChallenge?
    ensures step.VerifyMfa? && step.challenge in w.handed
    ensures var u := Added(w, totp, step).value;
      u.user == step.challenge.sub && u.at < step.challenge.exp
  {
  }

  lemma HandedStaysHanded(log: seq<Use>, u: Use, c: T.Jwt)
    requires HandedForPassword(log, c)
    ensures HandedForPassword(log + [u], c)
  {
    var j: nat :| Proves(log, j, c.sub) && c.exp == log[j].at + T.MFA_CHALLENGE_TTL;
    assert Proves(log + [u], j, c.sub);
  }

  lemma AnswersStillFollow(log: seq<Use>, u: Use, i: nat)
    requires i < |log| && FollowsPassword(log, i)
    ensures FollowsPassword(log + [u], i)
  {
    var j: nat :| j < i && Proves(log, j, log[i].user) && log[i].at < log[j].at + T.MFA_CHALLENGE_TTL;
    assert Proves(log + [u], j, log[i].user);
  }

  lemma StepKeepsAnswers(w: World, totp: Totp, step: Step)
    requires Generated(w) && AnswersFollowPasswords(w)
    ensures AnswersFollowPasswords(Apply(w, totp, step))
  {
    var w', u := Apply(w, totp, step), Added(w, totp, step);
    StepLogs(w, totp, step);
    forall c | c in w'.handed ensures HandedForPassword(w'.log, c) {
      if c !in w.handed {
        StepHands(w, totp, step, c);
        assert Proves(w'.log, |w.log|, c.sub);
      } else if u.Some? {
        HandedStaysHanded(w.log, u.value, c);
      }
    }
    forall i: nat | AnswersAt(w'.log, i) ensures FollowsPassword(w'.log, i) {
      if i < |w.log| {
        assert AnswersAt(w.log, i);
        if u.Some? {
          AnswersStillFollow(w.log, u.value, i);
        }
      } else {
        StepAnswers(w, totp, step);
        HandedStaysHanded(w.log, u.value, step.challenge);
      }
    }
  }

  /** Only using it marks a recovery code used. */
  lemma ChangeMarks(w: World, change: Change, k: (UserId, CodeDigest))
    requires Possible(w, change)
    requires k in Changed(w.s.tables, change).recovery && Changed(w.s.tables, change).recovery[k].Some?
    ensures (k in w.s.tables.recovery && w.s.tables.recovery[k].Some?) || (change.Uses? && change.factor == RecoveryCode(k.0, k.1))
  {
  }

  lemma StepKeepsUsedCodesLogged(w: World, totp: Totp, step: Step)
    requires Generated(w) && UsedCodesLogged(w)
    ensures UsedCodesLogged(Apply(w, totp, step))
  {
    var w' := Apply(w, totp, step);
    StepLogs(w, totp, step);
    StepChanges(w, totp, step);
    forall k | k in w'.s.tables.recovery && w'.s.tables.recovery[k].Some? ensures Logged(w'.log, RecoveryCode(k.0, k.1)) {
      ChangeMarks(w, ChangeOf(w, totp, step), k);
      if k in w.s.tables.recovery && w.s.tables.recovery[k].Some? {
        var i :| 0 <= i < |w.log| && w.log[i].factor == Some(RecoveryCode(k.0, k.1));
        assert w'.log[i].factor == Some(RecoveryCode(k.0, k.1));
      } else {
        assert w'.log[|w.log|].factor == Some(RecoveryCode(k.0, k.1));
      }
    }
  }

  // ----- the main results -----

  /**
   * Over every run: no factor is ever used up twice; every open session was opened once, for its own account,
   * and if that account's MFA was active with a factor of its own; a session opened by a code followed that
   * account's password within the challenge's lifetime; TOTP steps accepted within one enrolment strictly
   * increase; and an enrolment has its ten codes, used exactly where the log says so.
   */
  lemma {:induction false} EveryRunIsSound(totp: Totp, key: string, steps: seq<Step>)
    ensures Sound(Run(Empty(key), totp, steps))
  {
    if steps != [] {
      var front, last := steps[..|steps| - 1], steps[|steps| - 1];
      EveryRunIsSound(totp, key, front);
      var w := Run(Empty(key), totp, front);
      StepKeepsLogSound(w, totp, last);
      StepKeepsGenerated(w, totp, last);
      StepKeepsTenCodes(w, totp, last);
      StepKeepsSessionsLogged(w, totp, last);
      StepKeepsAnswers(w, totp, last);
      StepKeepsUsedCodesLogged(w, totp, last);
    }
  }

}
