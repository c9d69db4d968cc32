/** The second factor: TOTP steps, recovery codes and the enrolment they belong to. Times are seconds. */
module Mfa {
  import opened Wrappers
  import opened Text

  type UserId = nat
  type Secret = nat

  /** `pyotp.TOTP(secret).at(step)`: any function at all, so codes of different steps may collide. */
  type Totp = (Secret, int) -> string

  /** SHA-256 of a normalized recovery code, as an injective function. */
  datatype CodeDigest = CodeDigest(normalized: string)

  const RECOVERY_CODE_COUNT := 10
  const VALID_WINDOW := 1
  const TOTP_INTERVAL_SECONDS := 30

  // ----- recovery codes as text -----

  /** Drops the separators people may or may not type. */
  function Bare(code: string): string {
    Remove(Remove(code, '-'), ' ')
  }

  function NormalizeRecoveryCode(code: string): string {
    Bare(Upper(Strip(code)))
  }

  function HashRecoveryCode(code: string): CodeDigest {
    CodeDigest(NormalizeRecoveryCode(code))
  }

  /** Twenty hexadecimal digits printed in groups of five. */
  function Grouped(raw: string): string
    requires |raw| == 20
  {
    raw[..5] + "-" + raw[5..10] + "-" + raw[10..15] + "-" + raw[15..]
  }

  predicate HexUpper(s: string) {
    forall i :: 0 <= i < |s| ==> '0' <= s[i] <= '9' || 'A' <= s[i] <= 'F'
  }

  /** Typed text whose only whitespace is the space bar. */
  predicate PlainSpaces(code: string) {
    forall c :: c in code ==> IsSpace(c) ==> c == ' '
  }

  lemma BareAppend(s: string, t: string)
    ensures Bare(s + t) == Bare(s) + Bare(t)
  {
    RemoveAppend(s, t, '-');
    RemoveAppend(Remove(s, '-'), Remove(t, '-'), ' ');
  }

  lemma UpperAppend(s: string, t: string)
    ensures Upper(s + t) == Upper(s) + Upper(t)
  {
  }

  lemma BareUpperOfASeparator(c: char)
    requires c == ' ' || c == '-'
    ensures Bare(Upper([c])) == ""
  {
    assert Upper([c]) == [c];
    RemoveOne(c, '-');
    RemoveOne(c, ' ');
  }

  lemma {:induction false} StripLeftIsInvisible(code: string)
    requires PlainSpaces(code)
    ensures Bare(Upper(StripLeft(code))) == Bare(Upper(code)) && PlainSpaces(StripLeft(code))
  {
    if code != "" && IsSpace(code[0]) {
      StripLeftIsInvisible(code[1..]);
      assert code == [code[0]] + code[1..];
      UpperAppend([code[0]], code[1..]);
      BareAppend(Upper([code[0]]), Upper(code[1..]));
      BareUpperOfASeparator(code[0]);
    }
  }

  lemma {:induction false} StripRightIsInvisible(code: string)
    requires PlainSpaces(code)
    ensures Bare(Upper(StripRight(code))) == Bare(Upper(code))
  {
    if code != "" && IsSpace(code[|code| - 1]) {
      var front, last := code[..|code| - 1], [code[|code| - 1]];
      StripRightIsInvisible(front);
      assert code == front + last;
      UpperAppend(front, last);
      BareAppend(Upper(front), Upper(last));
      BareUpperOfASeparator(code[|code| - 1]);
    }
  }

  /** For typed codes the digest depends on nothing but the letters and digits, whatever their case. */
  lemma SameRowIff(p: string, q: string)
    requires PlainSpaces(p) && PlainSpaces(q)
    ensures HashRecoveryCode(p) == HashRecoveryCode(q) <==> Bare(Upper(p)) == Bare(Upper(q))
  {
    StripLeftIsInvisible(p);
    StripRightIsInvisible(StripLeft(p));
    StripLeftIsInvisible(q);
    StripRightIsInvisible(StripLeft(q));
  }

  lemma BareIgnoresASeparator(a: string, c: char, b: string)
    requires c == '-' || c == ' '
    ensures Bare(Upper(a + [c] + b)) == Bare(Upper(a + b))
  {
    UpperAppend(a + [c], b);
    UpperAppend(a, [c]);
    UpperAppend(a, b);
    BareAppend(Upper(a) + Upper([c]), Upper(b));
    BareAppend(Upper(a), Upper([c]));
    BareAppend(Upper(a), Upper(b));
    BareUpperOfASeparator(c);
  }

  /** A '-' or a ' ' typed anywhere changes nothing. */
  lemma SeparatorsDoNotMatter(a: string, c: char, b: string)
    requires PlainSpaces(a + b) && (c == '-' || c == ' ')
    ensures HashRecoveryCode(a + [c] + b) == HashRecoveryCode(a + b)
  {
    assert forall d :: d in a + [c] + b ==> d in a + b || d == c;
    SameRowIff(a + [c] + b, a + b);
    BareIgnoresASeparator(a, c, b);
  }

  /** Neither does the case of any letter. */
  lemma CaseDoesNotMatter(p: string, q: string)
    requires PlainSpaces(p) && PlainSpaces(q) && Upper(p) == Upper(q)
    ensures HashRecoveryCode(p) == HashRecoveryCode(q)
  {
    SameRowIff(p, q);
  }

  lemma {:induction false} BareOfHex(s: string)
    requires HexUpper(s)
    ensures Bare(Upper(s)) == s
  {
    if s != "" {
      assert s == [s[0]] + s[1..];
      BareOfHex(s[1..]);
      UpperAppend([s[0]], s[1..]);
      BareAppend([s[0]], Upper(s[1..]));
      assert Upper([s[0]]) == [s[0]];
      RemoveOne(s[0], '-');
      RemoveOne(s[0], ' ');
    }
  }

  lemma OneDash(code: string, at: nat)
    requires at <= |code|
    ensures Bare(Upper(code[..at] + "-" + code[at..])) == Bare(Upper(code))
  {
    assert code[..at] + code[at..] == code;
    BareIgnoresASeparator(code[..at], '-', code[at..]);
  }

  lemma BareGrouped(raw: string)
    requires |raw| == 20
    ensures Bare(Upper(Grouped(raw))) == Bare(Upper(raw))
  {
    var one := raw[..5] + "-" + raw[5..];
    var two := one[..11] + "-" + one[11..];
    assert one[..11] == raw[..5] + "-" + raw[5..10] && one[11..] == raw[10..];
    assert two[..17] == raw[..5] + "-" + raw[5..10] + "-" + raw[10..15] && two[17..] == raw[15..];
    OneDash(raw, 5);
    OneDash(one, 11);
    OneDash(two, 17);
    assert Grouped(raw) == two[..17] + "-" + two[17..];
  }

  /** Printing a code and normalizing it again gives back its twenty digits. */
  lemma PrintedCodeNormalizes(raw: string)
    requires |raw| == 20 && HexUpper(raw)
    ensures NormalizeRecoveryCode(Grouped(raw)) == raw
  {
    var printed := Grouped(raw);
    assert PlainSpaces(printed);
    StripLeftIsInvisible(printed);
    StripRightIsInvisible(StripLeft(printed));
    BareGrouped(raw);
    BareOfHex(raw);
  }

  // ----- TOTP steps -----

  /** Floor division, as Python's `//`. */
  function CounterFor(timestamp: int): int {
    timestamp / TOTP_INTERVAL_SECONDS
  }

  function Cleaned(code: string): string {
    Remove(Strip(code), ' ')
  }

  predicate IsDigits(s: string) {
    s != "" && forall c :: c in s ==> '0' <= c <= '9'
  }

  predicate InWindow(step: int, now: int) {
    CounterFor(now) - VALID_WINDOW <= step <= CounterFor(now) + VALID_WINDOW
  }

  /** `matching_counter`: the earliest of the three steps around now whose code this is. */
  function MatchingCounter(totp: Totp, secret: Secret, code: string, now: int): (r: Option<int>)
    ensures r.Some? ==>
      && IsDigits(Cleaned(code)) && InWindow(r.value, now) && totp(secret, r.value) == Cleaned(code)
      && forall s :: InWindow(s, now) && s < r.value ==> totp(secret, s) != Cleaned(code)
    ensures r.None? ==> !IsDigits(Cleaned(code)) || forall s :: InWindow(s, now) ==> totp(secret, s) != Cleaned(code)
  {
    var current := CounterFor(now);
    if !IsDigits(Cleaned(code)) then None
    else if totp(secret, current - 1) == Cleaned(code) then Some(current - 1)
    else if totp(secret, current) == Cleaned(code) then Some(current)
    else if totp(secret, current + 1) == Cleaned(code) then Some(current + 1)
    else None
  }

  // ----- the tables -----

  datatype UserMfa = UserMfa(secret: Secret, confirmedAt: Option<int>, lastUsedCounter: Option<int>)

  /** Both tables keyed by their unique index; a recovery row maps to its `used_at`. */
  datatype Tables = Tables(mfa: map<UserId, UserMfa>, recovery: map<(UserId, CodeDigest), Option<int>>)

  /** What one accepted code used up. */
  datatype Factor =
    | TotpStep(user: UserId, secret: Secret, step: int)
    | RecoveryCode(user: UserId, digest: CodeDigest)
    | PasskeyChallenge(challenge: string)

  datatype Error = NotConfigured | AlreadyEnrolled | NotEnrolled | InvalidCode | ConstraintViolated

  predicate IsMfaActive(t: Tables, user: UserId) {
    user in t.mfa && t.mfa[user].confirmedAt.Some?
  }

  function RowsOf(t: Tables, user: UserId): set<(UserId, CodeDigest)> {
    set k | k in t.recovery && k.0 == user
  }

  function UnusedCodes(t: Tables, user: UserId): set<(UserId, CodeDigest)> {
    set k | k in t.recovery && k.0 == user && t.recovery[k].None?
  }

  function UsedCodes(t: Tables, user: UserId): set<(UserId, CodeDigest)> {
    set k | k in t.recovery && k.0 == user && t.recovery[k].Some?
  }

  function Unused(user: UserId, digests: set<CodeDigest>): map<(UserId, CodeDigest), Option<int>> {
    map d | d in digests :: (user, d) := None
  }

  /** A restarted or first setup: a new secret, and exactly the new codes. */
  function Started(t: Tables, user: UserId, secret: Secret, digests: set<CodeDigest>): Tables {
    Tables(
      t.mfa[user := UserMfa(secret, None, None)],
      (t.recovery - RowsOf(t, user)) + Unused(user, digests))
  }

  function Disabled(t: Tables, user: UserId): Tables {
    Tables(t.mfa - {user}, t.recovery - RowsOf(t, user))
  }

  /** What an accepted code uses up, or why a code is refused. */
  function Accepts(t: Tables, totp: Totp, user: UserId, code: string, now: int): Result<Factor, Error> {
    if !IsMfaActive(t, user) then Err(NotEnrolled)
    else
      var record := t.mfa[user];
      match MatchingCounter(totp, record.secret, code, now)
      case Some(step) =>
        if record.lastUsedCounter.Some? && step <= record.lastUsedCounter.value then Err(InvalidCode)
        else Ok(TotpStep(user, record.secret, step))
      case None =>
        var key := (user, HashRecoveryCode(code));
        if key in t.recovery && t.recovery[key].None? then Ok(RecoveryCode(user, key.1)) else Err(InvalidCode)
  }

  /** The tables once a factor has been used up. */
  function Consumed(t: Tables, factor: Factor, now: int): Tables {
    match factor
    case TotpStep(user, secret, step) =>
      if user in t.mfa then t.(mfa := t.mfa[user := t.mfa[user].(lastUsedCounter := Some(step))]) else t
    case RecoveryCode(user, digest) => t.(recovery := t.recovery[(user, digest) := Some(now)])
    case PasskeyChallenge(_) => t
  }

  class MfaService {
    const totp: Totp
    var mfa: map<UserId, UserMfa>
    var recovery: map<(UserId, CodeDigest), Option<int>>

    constructor (totp: Totp)
      ensures this.totp == totp && State() == Tables(map[], map[])
    {
      this.totp := totp;
      mfa, recovery := map[], map[];
    }

    function State(): Tables
      reads this
    {
      Tables(mfa, recovery)
    }

    /** Deletes the account's recovery rows one by one. */
    method DropRecoveryCodes(user: UserId)
      modifies this`recovery
      ensures recovery == old(recovery) - RowsOf(old(State()), user)
    {
      var stale := RowsOf(State(), user);
      ghost var all := stale;
      while stale != {}
        invariant stale <= all
        invariant recovery == old(recovery) - (all - stale)
      {
        var row :| row in stale;
        recovery := recovery - {row};
        stale := stale - {row};
      }
    }

    /**
     * `start_enrolment`, with the secret and the ten codes the random source returned. A repeated code
     * violates the unique index and the transaction is rolled back.
     */
    method StartEnrolment(user: UserId, secret: Secret, codes: seq<string>, keyConfigured: bool)
      returns (r: Result<(), Error>)
      requires |codes| == RECOVERY_CODE_COUNT
      modifies this
      ensures IsMfaActive(old(State()), user) ==> r == Err(AlreadyEnrolled)
      ensures r.Ok? <==>
        && !IsMfaActive(old(State()), user) && keyConfigured
        && |set code | code in codes :: HashRecoveryCode(code)| == RECOVERY_CODE_COUNT
      ensures State() == if r.Ok?
        then Started(old(State()), user, secret, set code | code in codes :: HashRecoveryCode(code))
        else old(State())
    {
      if user in mfa && mfa[user].confirmedAt.Some? {
        return Err(AlreadyEnrolled);
      }
      if !keyConfigured {
        return Err(NotConfigured);
      }
      var saved := State();
      var digests := set code | code in codes :: HashRecoveryCode(code);
      if user in mfa {
        mfa := mfa[user := mfa[user].(secret := secret)];
        mfa := mfa[user := mfa[user].(lastUsedCounter := None)];
      } else {
        mfa := mfa[user := UserMfa(secret, None, None)];
      }
      DropRecoveryCodes(user);
      if |digests| != |codes| {
        mfa, recovery := saved.mfa, saved.recovery;
        return Err(ConstraintViolated);
      }
      recovery := recovery + Unused(user, digests);
      return Ok(());
    }

    /** `confirm_enrolment`: the code that proves the setup is used up by doing so. */
    method ConfirmEnrolment(user: UserId, code: string, keyConfigured: bool, now: int) returns (r: Result<Factor, Error>)
      modifies this`mfa
      ensures r.Ok? <==>
        && user in old(mfa) && old(mfa)[user].confirmedAt.None? && keyConfigured
        && MatchingCounter(totp, old(mfa)[user].secret, code, now).Some?
      ensures r.Ok? ==>
        && r.value == TotpStep(user, old(mfa)[user].secret, MatchingCounter(totp, old(mfa)[user].secret, code, now).value)
        && mfa == old(mfa)[user := UserMfa(old(mfa)[user].secret, Some(now), Some(r.value.step))]
      ensures r.Err? ==> mfa == old(mfa)
    {
      if user !in mfa {
        return Err(NotEnrolled);
      }
      if mfa[user].confirmedAt.Some? {
        return Err(AlreadyEnrolled);
      }
      if !keyConfigured {
        return Err(NotConfigured);
      }
      var step := MatchingCounter(totp, mfa[user].secret, code, now);
      if step.None? {
        return Err(InvalidCode);
      }
      mfa := mfa[user := mfa[user].(confirmedAt := Some(now))];
      mfa := mfa[user := mfa[user].(lastUsedCounter := Some(step.value))];
      return Ok(TotpStep(user, mfa[user].secret, step.value));
    }

    /** `verify_code_for_login`: a TOTP code or a recovery code, used up on success. */
    method VerifyCodeForLogin(user: UserId, code: string, keyConfigured: bool, now: int) returns (r: Result<Factor, Error>)
      modifies this
      ensures r == if IsMfaActive(old(State()), user) && !keyConfigured then Err(NotConfigured)
        else Accepts(old(State()), totp, user, code, now)
      ensures State() == if r.Ok? then Consumed(old(State()), r.value, now) else old(State())
    {
      if user !in mfa || mfa[user].confirmedAt.None? {
        return Err(NotEnrolled);
      }
      if !keyConfigured {
        return Err(NotConfigured);
      }
      var record := mfa[user];
      var step := MatchingCounter(totp, record.secret, code, now);
      if step.Some? {
        if record.lastUsedCounter.Some? && step.value <= record.lastUsedCounter.value {
          return Err(InvalidCode);
        }
        mfa := mfa[user := record.(lastUsedCounter := step)];
        return Ok(TotpStep(user, record.secret, step.value));
      }
      var key := (user, HashRecoveryCode(code));
      if key !in recovery || recovery[key].Some? {
        return Err(InvalidCode);
      }
      recovery := recovery[key := Some(now)];
      return Ok(RecoveryCode(user, key.1));
    }

    /** `remaining_recovery_codes`: what is left of the account's codes once the used ones are taken away. */
    method RemainingRecoveryCodes(user: UserId) returns (n: nat)
      ensures n + |UsedCodes(State(), user)| == |RowsOf(State(), user)|
    {
      var unused := UnusedCodes(State(), user);
      assert unused + UsedCodes(State(), user) == RowsOf(State(), user);
      return |unused|;
    }

    /** `disable_mfa`. */
    method DisableMfa(user: UserId) returns (r: Result<(), Error>)
      modifies this
      ensures r.Ok? <==> IsMfaActive(old(State()), user)
      ensures State() == if r.Ok? then Disabled(old(State()), user) else old(State())
    {
      if user !in mfa || mfa[user].confirmedAt.None? {
        return Err(NotEnrolled);
      }
      mfa := mfa - {user};
      DropRecoveryCodes(user);
      return Ok(());
    }
  }

  /**
   * A TOTP code is accepted for step `k` exactly when `k` is the first of the three steps around now that shows it
   * and is newer than the last one used.
   */
  lemma TotpAcceptedIff(t: Tables, totp: Totp, user: UserId, code: string, k: int, now: int)
    requires user in t.mfa && t.mfa[user].confirmedAt.Some?
    ensures Accepts(t, totp, user, code, now) == Ok(TotpStep(user, t.mfa[user].secret, k)) <==>
      && Cleaned(code) != "" && (forall c :: c in Cleaned(code) ==> '0' <= c <= '9')
      && now / 30 - 1 <= k <= now / 30 + 1
      && totp(t.mfa[user].secret, k) == Cleaned(code)
      && (forall s :: now / 30 - 1 <= s < k ==> totp(t.mfa[user].secret, s) != Cleaned(code))
      && (t.mfa[user].lastUsedCounter.None? || t.mfa[user].lastUsedCounter.value < k)
  {
  }

  /** A typed code no step around now shows is accepted exactly when it is an unused recovery code of the account. */
  lemma RecoveryAcceptedIff(t: Tables, totp: Totp, user: UserId, code: string, digest: CodeDigest, now: int)
    requires user in t.mfa && t.mfa[user].confirmedAt.Some?
    requires forall s :: now / 30 - 1 <= s <= now / 30 + 1 ==> totp(t.mfa[user].secret, s) != Cleaned(code)
    ensures Accepts(t, totp, user, code, now) == Ok(RecoveryCode(user, digest)) <==>
      digest == HashRecoveryCode(code) && ((user, digest), None) in t.recovery.Items
  {
  }

  /** In particular an unused code typed as it was printed, with any letter in either case, is accepted. */
  lemma PrintedCodeIsAccepted(t: Tables, totp: Totp, user: UserId, raw: string, typed: string, now: int)
    requires user in t.mfa && t.mfa[user].confirmedAt.Some?
    requires |raw| == 20 && HexUpper(raw) && PlainSpaces(typed) && Upper(typed) == Upper(Grouped(raw))
    requires forall s :: now / 30 - 1 <= s <= now / 30 + 1 ==> totp(t.mfa[user].secret, s) != Cleaned(typed)
    requires ((user, CodeDigest(raw)), None) in t.recovery.Items
    ensures Accepts(t, totp, user, typed, now) == Ok(RecoveryCode(user, CodeDigest(raw)))
  {
    PrintedCodeNormalizes(raw);
    assert PlainSpaces(Grouped(raw));
    CaseDoesNotMatter(typed, Grouped(raw));
    RecoveryAcceptedIff(t, totp, user, typed, CodeDigest(raw), now);
  }

  /** Without an active enrolment no code is accepted at all. */
  lemma NothingAcceptedUnenrolled(t: Tables, totp: Totp, user: UserId, code: string, now: int)
    ensures Accepts(t, totp, user, code, now) == Err(NotEnrolled) <==> user !in t.mfa || t.mfa[user].confirmedAt.None?
  {
  }

  /** Spaces in or around a TOTP code make no difference. */
  lemma SpacesInACodeDoNotMatter(a: string, b: string)
    requires PlainSpaces(a + b)
    ensures Cleaned(a + " " + b) == Cleaned(a + b)
  {
    CleanedIsWithoutSpaces(a + " " + b);
    CleanedIsWithoutSpaces(a + b);
    RemoveAppend(a + " ", b, ' ');
    RemoveAppend(a, " ", ' ');
    RemoveAppend(a, b, ' ');
    RemoveOne(' ', ' ');
  }

  lemma CleanedIsWithoutSpaces(code: string)
    requires PlainSpaces(code)
    ensures Cleaned(code) == Remove(code, ' ')
  {
    StrippedLeftWithoutSpaces(code);
    StrippedRightWithoutSpaces(StripLeft(code));
  }

  lemma {:induction false} StrippedLeftWithoutSpaces(code: string)
    requires PlainSpaces(code)
    ensures Remove(StripLeft(code), ' ') == Remove(code, ' ') && PlainSpaces(StripLeft(code))
  {
    if code != "" && IsSpace(code[0]) {
      StrippedLeftWithoutSpaces(code[1..]);
      assert code[0] in code;
    }
  }

  lemma {:induction false} StrippedRightWithoutSpaces(code: string)
    requires PlainSpaces(code)
    ensures Remove(StripRight(code), ' ') == Remove(code, ' ')
  {
    if code != "" && IsSpace(code[|code| - 1]) {
      var front, last := code[..|code| - 1], [code[|code| - 1]];
      StrippedRightWithoutSpaces(front);
      assert code == front + last && last[0] in code;
      RemoveAppend(front, last, ' ');
      RemoveOne(' ', ' ');
    }
  }

  /** The lifecycle: setting up alone is no enrolment, confirming is, and disabling ends it. */
  lemma EnrolmentLifecycle(t: Tables, user: UserId, secret: Secret, digests: set<CodeDigest>)
    ensures var started := Started(t, user, secret, digests);
      && user in started.mfa && started.mfa[user] == UserMfa(secret, None, None)
      && !IsMfaActive(started, user)
      && !IsMfaActive(Disabled(t, user), user) && user !in Disabled(t, user).mfa
      && forall other :: other != user ==>
        && (IsMfaActive(started, other) <==> IsMfaActive(t, other))
        && (IsMfaActive(Disabled(t, user), other) <==> IsMfaActive(t, other))
  {
  }

  /** Using a factor writes that factor and nothing else, and using a step is what makes it the last one used. */
  lemma UseTouchesOneRow(t: Tables, factor: Factor, now: int)
    requires match factor
      case TotpStep(user, secret, step) => user in t.mfa
      case RecoveryCode(user, digest) => (user, digest) in t.recovery
      case PasskeyChallenge(_) => true
    ensures var t' := Consumed(t, factor, now);
      && t'.mfa.Keys == t.mfa.Keys && t'.recovery.Keys == t.recovery.Keys
      && (forall u :: u in t.mfa ==> t'.mfa[u].secret == t.mfa[u].secret && t'.mfa[u].confirmedAt == t.mfa[u].confirmedAt)
      && (forall u :: u in t.mfa ==>
        t'.mfa[u].lastUsedCounter == if factor.TotpStep? && factor.user == u then Some(factor.step) else t.mfa[u].lastUsedCounter)
      && (forall k :: k in t.recovery ==>
        t'.recovery[k] == if factor.RecoveryCode? && k == (factor.user, factor.digest) then Some(now) else t.recovery[k])
  {
  }

  /**
   * A code accepted for step `k` is refused for as long as any clock's window contains `k`, even when
   * neighbouring steps show the same digits: the search settles on `k` or on something earlier still.
   */
  lemma UsedStepStaysRefused(t: Tables, totp: Totp, user: UserId, code: string, k: int, now: int)
    requires IsMfaActive(t, user) && InWindow(k, now)
    requires IsDigits(Cleaned(code)) && totp(t.mfa[user].secret, k) == Cleaned(code)
    requires t.mfa[user].lastUsedCounter.Some? && k <= t.mfa[user].lastUsedCounter.value
    ensures Accepts(t, totp, user, code, now) == Err(InvalidCode)
  {
  }

}
