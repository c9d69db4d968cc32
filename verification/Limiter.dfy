/** The sliding-window login limiter, which counts failures in the audit trail. Times are seconds. */
module Limiter {
  import opened Text

  const MAX_FAILED_LOGINS := 10
  const LOGIN_WINDOW := 15 * 60

  datatype EventType = LoginSucceeded | LoginFailed

  datatype AuthEvent = AuthEvent(email: string, eventType: EventType, createdAt: int)

  function NormalizeEmail(email: string): string {
    Casefold(Strip(email))
  }

  predicate CountsAgainst(e: AuthEvent, email: string, since: int) {
    e.email == email && e.eventType == LoginFailed && e.createdAt >= since
  }

  /** `_failed_attempts_since`. */
  function FailedAttemptsSince(events: seq<AuthEvent>, email: string, since: int): nat {
    if events == [] then 0
    else
      var front := FailedAttemptsSince(events[..|events| - 1], email, since);
      if CountsAgainst(events[|events| - 1], email, since) then front + 1 else front
  }

  predicate Throttled(events: seq<AuthEvent>, email: string, now: int) {
    FailedAttemptsSince(events, email, now - LOGIN_WINDOW) >= MAX_FAILED_LOGINS
  }

  /**
   * Something that touches the trail: a password attempt, which is accepted or not and may still owe a second
   * factor, or the completion of a second factor.
   */
  datatype Attempt =
    | Password(rawEmail: string, accepted: bool, mfaOwed: bool, now: int)
    | SecondFactor(email: string, now: int)

  function Email(a: Attempt): string {
    if a.Password? then NormalizeEmail(a.rawEmail) else a.email
  }

  /** The trail after an attempt; a throttled one leaves no mark at all. */
  function Recorded(events: seq<AuthEvent>, a: Attempt): seq<AuthEvent> {
    if a.SecondFactor? then events + [AuthEvent(a.email, LoginSucceeded, a.now)]
    else if Throttled(events, Email(a), a.now) then events
    else if !a.accepted then events + [AuthEvent(Email(a), LoginFailed, a.now)]
    else if a.mfaOwed then events
    else events + [AuthEvent(Email(a), LoginSucceeded, a.now)]
  }

  function Run(events: seq<AuthEvent>, attempts: seq<Attempt>): seq<AuthEvent> {
    if attempts == [] then events else Recorded(Run(events, attempts[..|attempts| - 1]), attempts[|attempts| - 1])
  }

  /** Rows are stamped no later than this. */
  ghost predicate StampedBy(events: seq<AuthEvent>, clock: int) {
    forall i :: 0 <= i < |events| ==> events[i].createdAt <= clock
  }

  /** Failures for one email inside a closed interval. */
  function FailuresWithin(events: seq<AuthEvent>, email: string, from: int, to: int): nat {
    if events == [] then 0
    else
      var front, last := FailuresWithin(events[..|events| - 1], email, from, to), events[|events| - 1];
      if CountsAgainst(last, email, from) && last.createdAt <= to then front + 1 else front
  }

  lemma {:induction false} WithinIsAtMostSince(events: seq<AuthEvent>, email: string, from: int, to: int, since: int)
    requires since <= from
    ensures FailuresWithin(events, email, from, to) <= FailedAttemptsSince(events, email, since)
  {
    if events != [] {
      WithinIsAtMostSince(events[..|events| - 1], email, from, to, since);
    }
  }

  lemma OneMore(events: seq<AuthEvent>, e: AuthEvent, email: string, from: int, to: int)
    ensures FailuresWithin(events + [e], email, from, to)
      == FailuresWithin(events, email, from, to) + if CountsAgainst(e, email, from) && e.createdAt <= to then 1 else 0
  {
    assert (events + [e])[..|events|] == events;
  }

  /** An attempt is only recorded as a failure of this email while the window before it still has room. */
  lemma AttemptStaysBelowTheLimit(events: seq<AuthEvent>, a: Attempt, email: string, t: int)
    requires FailuresWithin(events, email, t, t + LOGIN_WINDOW) <= MAX_FAILED_LOGINS
    ensures FailuresWithin(Recorded(events, a), email, t, t + LOGIN_WINDOW) <= MAX_FAILED_LOGINS
  {
    var e := AuthEvent(Email(a), if a.Password? && !a.accepted then LoginFailed else LoginSucceeded, a.now);
    OneMore(events, e, email, t, t + LOGIN_WINDOW);
    if a.now <= t + LOGIN_WINDOW {
      WithinIsAtMostSince(events, email, t, t + LOGIN_WINDOW, a.now - LOGIN_WINDOW);
    }
  }

  /** Over every run, on any clock, no closed fifteen-minute window holds more than ten recorded failures of one email. */
  lemma {:induction false} NoWindowOverflows(attempts: seq<Attempt>, email: string, t: int)
    ensures FailuresWithin(Run([], attempts), email, t, t + LOGIN_WINDOW) <= MAX_FAILED_LOGINS
  {
    if attempts != [] {
      var front, last := attempts[..|attempts| - 1], attempts[|attempts| - 1];
      var before := Run([], front);
      NoWindowOverflows(front, email, t);
      AttemptStaysBelowTheLimit(before, last, email, t);
    }
  }

  lemma {:induction false} AgedOut(events: seq<AuthEvent>, email: string, since: int)
    requires forall i :: 0 <= i < |events| && events[i].email == email && events[i].eventType == LoginFailed ==>
      events[i].createdAt < since
    ensures FailedAttemptsSince(events, email, since) == 0
  {
    if events != [] {
      AgedOut(events[..|events| - 1], email, since);
    }
  }

  /** Every password attempt for this email in the run was throttled. */
  predicate OnlyThrottled(events: seq<AuthEvent>, attempts: seq<Attempt>, email: string) {
    attempts == [] ||
    var front, last := attempts[..|attempts| - 1], attempts[|attempts| - 1];
    && OnlyThrottled(events, front, email)
    && (last.Password? && Email(last) == email ==> Throttled(Run(events, front), email, last.now))
  }

  /** Only a refused password attempt for this very email that was not throttled adds to its failures. */
  lemma AttemptAddsFailureIff(events: seq<AuthEvent>, a: Attempt, email: string, since: int)
    ensures FailedAttemptsSince(Recorded(events, a), email, since) == FailedAttemptsSince(events, email, since)
      + if a.Password? && Email(a) == email && !Throttled(events, email, a.now) && !a.accepted && a.now >= since then 1 else 0
  {
    var after := Recorded(events, a);
    if after != events {
      assert |after| == |events| + 1 && after[..|after| - 1] == events;
    }
  }

  lemma {:induction false} ThrottledAttemptsAddNoFailure(events: seq<AuthEvent>, attempts: seq<Attempt>, email: string, since: int)
    requires OnlyThrottled(events, attempts, email)
    ensures FailedAttemptsSince(Run(events, attempts), email, since) == FailedAttemptsSince(events, email, since)
  {
    if attempts != [] {
      var front, last := attempts[..|attempts| - 1], attempts[|attempts| - 1];
      ThrottledAttemptsAddNoFailure(events, front, email, since);
      AttemptAddsFailureIff(Run(events, front), last, email, since);
    }
  }

  /**
   * Throttling ends by itself: however often a throttled email is tried meanwhile, and whatever other emails
   * do, once fifteen minutes have passed since its last recorded failure the next attempt is let through.
   */
  lemma ThrottlingEnds(events: seq<AuthEvent>, clock: int, attempts: seq<Attempt>, email: string, now: int)
    requires StampedBy(events, clock) && OnlyThrottled(events, attempts, email)
    requires now > clock + LOGIN_WINDOW
    ensures !Throttled(Run(events, attempts), email, now)
  {
    ThrottledAttemptsAddNoFailure(events, attempts, email, now - LOGIN_WINDOW);
    AgedOut(events, email, now - LOGIN_WINDOW);
  }

  /** The recorded failures of one email since a time. */
  function FailuresSince(events: seq<AuthEvent>, email: string, since: int): set<nat> {
    set i: nat | i < |events| && events[i].email == email && events[i].eventType == LoginFailed && since <= events[i].createdAt
  }

  lemma {:induction false} CountedIsEach(events: seq<AuthEvent>, email: string, since: int)
    ensures FailedAttemptsSince(events, email, since) == |FailuresSince(events, email, since)|
  {
    if events != [] {
      var front, n := events[..|events| - 1], |events| - 1;
      CountedIsEach(front, email, since);
      if n in FailuresSince(events, email, since) {
        assert FailuresSince(events, email, since) == FailuresSince(front, email, since) + {n};
      } else {
        assert FailuresSince(events, email, since) == FailuresSince(front, email, since);
      }
    }
  }

  /** An email is let through exactly while it has fewer than ten recorded failures in the last fifteen minutes. */
  lemma LetThroughIff(events: seq<AuthEvent>, email: string, now: int)
    ensures !Throttled(events, email, now) <==> |FailuresSince(events, email, now - 15 * 60)| < 10
  {
    CountedIsEach(events, email, now - 15 * 60);
  }

  /** What an attempt leaves on the trail when it is let through: its outcome, unless a second factor is still owed. */
  lemma AttemptsAreRecorded(events: seq<AuthEvent>, a: Attempt)
    ensures a.SecondFactor? ==> Recorded(events, a) == events + [AuthEvent(a.email, LoginSucceeded, a.now)]
    ensures a.Password? && |FailuresSince(events, NormalizeEmail(a.rawEmail), a.now - 15 * 60)| >= 10 ==> Recorded(events, a) == events
    ensures a.Password? && |FailuresSince(events, NormalizeEmail(a.rawEmail), a.now - 15 * 60)| < 10 ==>
      Recorded(events, a) ==
        if a.accepted && a.mfaOwed then events
        else events + [AuthEvent(NormalizeEmail(a.rawEmail), if a.accepted then LoginSucceeded else LoginFailed, a.now)]
  {
    if a.Password? {
      LetThroughIff(events, NormalizeEmail(a.rawEmail), a.now);
    }
  }

  /** Through the route only what was accepted stays on it. */
  lemma AcceptedAttemptsSettle(events: seq<AuthEvent>, a: Attempt)
    ensures Settled(events, a) == if a.Password? && !a.accepted then events else Recorded(events, a)
  {
  }

  // ----- how an email may be spelled -----

  /** Blanks around an email and the case of its letters do not matter: all its spellings share one count. */
  lemma SpellingsShareACount(before: string, email: string, after: string, other: string)
    requires (forall c :: c in before ==> IsSpace(c)) && (forall c :: c in after ==> IsSpace(c))
    requires Upper(email) == Upper(other)
    ensures NormalizeEmail(before + email + after) == NormalizeEmail(other)
  {
    BlanksBeforeGo(before, email + after);
    assert before + email + after == before + (email + after);
    BlanksAfterGo(email, after);
    StripIgnoresCase(email, other);
    CasefoldIgnoresCase(Strip(email), Strip(other));
  }

  // ----- one email never affects another -----

  function EventsOf(events: seq<AuthEvent>, email: string): seq<AuthEvent> {
    if events == [] then []
    else
      var front, last := EventsOf(events[..|events| - 1], email), events[|events| - 1];
      if last.email == email then front + [last] else front
  }

  function AttemptsOf(attempts: seq<Attempt>, email: string): seq<Attempt> {
    if attempts == [] then []
    else
      var front, last := AttemptsOf(attempts[..|attempts| - 1], email), attempts[|attempts| - 1];
      if Email(last) == email then front + [last] else front
  }

  lemma {:induction false} OwnEventsDecide(events: seq<AuthEvent>, email: string, since: int)
    ensures FailedAttemptsSince(EventsOf(events, email), email, since) == FailedAttemptsSince(events, email, since)
  {
    if events != [] {
      var front, last := events[..|events| - 1], events[|events| - 1];
      OwnEventsDecide(front, email, since);
      if last.email == email {
        assert EventsOf(events, email)[..|EventsOf(front, email)|] == EventsOf(front, email);
      }
    }
  }

  lemma EventsOfAppend(events: seq<AuthEvent>, e: AuthEvent, email: string)
    ensures EventsOf(events + [e], email) == if e.email == email then EventsOf(events, email) + [e] else EventsOf(events, email)
  {
    assert (events + [e])[..|events|] == events;
  }

  /** An attempt adds to an email's own trail what it would add to that trail alone. */
  lemma OwnTrailAlone(events: seq<AuthEvent>, a: Attempt, email: string)
    ensures EventsOf(Recorded(events, a), email)
      == if Email(a) == email then Recorded(EventsOf(events, email), a) else EventsOf(events, email)
  {
    OwnEventsDecide(events, Email(a), a.now - LOGIN_WINDOW);
    EventsOfAppend(events, AuthEvent(Email(a), LoginFailed, a.now), email);
    EventsOfAppend(events, AuthEvent(Email(a), LoginSucceeded, a.now), email);
  }

  /**
   * What the trail says of one email after any run is what it would say had nobody else ever tried to sign
   * in; so is whether its next attempt is throttled.
   */
  lemma {:induction false} EmailsAreIndependent(events: seq<AuthEvent>, attempts: seq<Attempt>, email: string, now: int)
    ensures var alone := Run(EventsOf(events, email), AttemptsOf(attempts, email));
      && EventsOf(Run(events, attempts), email) == alone
      && (Throttled(Run(events, attempts), email, now) <==> Throttled(alone, email, now))
  {
    if attempts != [] {
      var front, last := attempts[..|attempts| - 1], attempts[|attempts| - 1];
      EmailsAreIndependent(events, front, email, last.now);
      OwnTrailAlone(Run(events, front), last, email);
      if Email(last) == email {
        assert AttemptsOf(attempts, email)[..|AttemptsOf(front, email)|] == AttemptsOf(front, email);
      }
    }
    OwnEventsDecide(Run(events, attempts), email, now - LOGIN_WINDOW);
  }

  // ----- inside the request transaction -----

  /** The trail after a request to the login route, whose transaction is rolled back when it answers with an error. */
  function Settled(events: seq<AuthEvent>, a: Attempt): seq<AuthEvent> {
    if a.Password? && (Throttled(events, Email(a), a.now) || !a.accepted) then events else Recorded(events, a)
  }

  function RunSettled(events: seq<AuthEvent>, attempts: seq<Attempt>): seq<AuthEvent> {
    if attempts == [] then events else Settled(RunSettled(events, attempts[..|attempts| - 1]), attempts[|attempts| - 1])
  }

  /**
   * With that rollback a run of login requests adds no failure to anyone's count, so what is throttled after
   * it is exactly what the failures already committed before it throttle.
   */
  lemma {:induction false} RolledBackFailuresDoNotCount(events: seq<AuthEvent>, attempts: seq<Attempt>, email: string, now: int)
    ensures Throttled(RunSettled(events, attempts), email, now) <==> Throttled(events, email, now)
  {
    RolledBackFailuresAreAbsent(events, attempts, email, now - LOGIN_WINDOW);
  }

  lemma {:induction false} RolledBackFailuresAreAbsent(events: seq<AuthEvent>, attempts: seq<Attempt>, email: string, since: int)
    ensures FailedAttemptsSince(RunSettled(events, attempts), email, since) == FailedAttemptsSince(events, email, since)
  {
    if attempts != [] {
      var front, last := attempts[..|attempts| - 1], attempts[|attempts| - 1];
      RolledBackFailuresAreAbsent(events, front, email, since);
      AttemptAddsFailureIff(RunSettled(events, front), last, email, since);
    }
  }

}
