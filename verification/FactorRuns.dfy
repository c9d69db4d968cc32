/** What sound sign-in runs come to: sessions and the factors that paid for them, TOTP steps, recovery codes. */
module FactorRuns {
  import opened Wrappers
  import opened Mfa
  import opened Logins
  import opened LoginRuns
  import T = Tokens

  /** Open session `sid` was opened while its account's MFA was active, by using up `factor`. */
  ghost predicate PaidBy(w: World, sid: SessionId, factor: Factor) {
    exists i: nat :: OpenedAt(w, i, sid) && w.log[i].mfaActive && w.log[i].factor == Some(factor)
  }

  ghost predicate OpenedUnderMfa(w: World, sid: SessionId) {
    exists i: nat :: OpenedAt(w, i, sid) && w.log[i].mfaActive
  }

  /**
   * The open sessions that were opened under active MFA map, each to exactly one factor, injectively; and the
   * factor, unless it is a passkey's challenge, is the session's own account's.
   */
  lemma SessionsMapInjectivelyToFactors(w: World, a: SessionId, b: SessionId)
    requires Sound(w) && a in w.s.sessions && b in w.s.sessions && OpenedUnderMfa(w, a) && OpenedUnderMfa(w, b)
    ensures exists f :: PaidBy(w, a, f)
    ensures forall f :: PaidBy(w, a, f) && !f.PasskeyChallenge? ==> f.user == w.s.sessions[a]
    ensures forall f, g :: PaidBy(w, a, f) && PaidBy(w, b, g) ==> (f == g <==> a == b)
  {
    var i: nat :| OpenedAt(w, i, a) && w.log[i].mfaActive;
    assert WellFormed(w.log[i]);
    assert PaidBy(w, a, w.log[i].factor.value);
    forall f, g | PaidBy(w, a, f) && PaidBy(w, b, g) ensures f == g <==> a == b {
      var k: nat :| OpenedAt(w, k, a) && w.log[k].factor == Some(f);
      var l: nat :| OpenedAt(w, l, b) && w.log[l].factor == Some(g);
      assert k < l || l < k || k == l;
    }
    forall f | PaidBy(w, a, f) && !f.PasskeyChallenge? ensures f.user == w.s.sessions[a] {
      var k: nat :| OpenedAt(w, k, a) && w.log[k].factor == Some(f);
      assert WellFormed(w.log[k]);
    }
  }

  /** A session opened without a factor was opened by presenting exactly the account's password, with MFA off. */
  lemma PasswordSessionsKnewThePassword(w: World, sid: SessionId, i: nat)
    requires Sound(w) && sid in w.s.sessions && OpenedAt(w, i, sid) && w.log[i].factor.None?
    ensures w.log[i].user == w.s.sessions[sid] && !w.log[i].mfaActive
    ensures w.log[i].shown.Password? && w.log[i].shown.presented == w.log[i].shown.stored
  {
    assert WellFormed(w.log[i]);
  }

  /** A session opened with a passkey was opened by an assertion that verified. */
  lemma PasskeySessionsWereVerified(w: World, sid: SessionId, i: nat)
    requires Sound(w) && OpenedAt(w, i, sid) && w.log[i].factor.Some? && w.log[i].factor.value.PasskeyChallenge?
    ensures w.log[i].shown == Assertion(true)
  {
    assert WellFormed(w.log[i]);
  }

  /** An open session opened with a code or a recovery code: its account's password came first, and not long before. */
  lemma BothFactorsWereGiven(w: World, sid: SessionId, i: nat)
    requires Sound(w) && sid in w.s.sessions && OpenedAt(w, i, sid) && AnswersAt(w.log, i)
    ensures w.log[i].factor.value.user == w.s.sessions[sid]
    ensures exists j: nat ::
      && j < i && Proves(w.log, j, w.s.sessions[sid]) && w.log[i].at < w.log[j].at + 5 * 60
      && w.log[j].shown.presented == w.log[j].shown.stored
  {
    assert WellFormed(w.log[i]);
    assert FollowsPassword(w.log, i);
  }

  /** Whatever code once paid for step `k` is refused as long as a clock's window still contains `k`. */
  lemma AcceptedStepStaysRefused(w: World, totp: Totp, i: nat, code: string, now: int)
    requires Sound(w) && i < |w.log| && w.log[i].factor.Some? && w.log[i].factor.value.TotpStep?
    requires var f := w.log[i].factor.value;
      && IsMfaActive(w.s.tables, f.user) && w.s.tables.mfa[f.user].secret == f.secret
      && IsDigits(Cleaned(code)) && totp(f.secret, f.step) == Cleaned(code) && InWindow(f.step, now)
    ensures Accepts(w.s.tables, totp, w.log[i].factor.value.user, code, now) == Err(InvalidCode)
  {
    var f := w.log[i].factor.value;
    assert Spent(w, f);
    UsedStepStaysRefused(w.s.tables, totp, f.user, code, f.step, now);
  }

  /** The TOTP steps one enrolment accepted between two times, in log order. */
  function AcceptedSteps(log: seq<Use>, user: UserId, secret: Secret, t1: int, t2: int): seq<int> {
    if log == [] then []
    else
      var front, last := AcceptedSteps(log[..|log| - 1], user, secret, t1, t2), log[|log| - 1];
      if last.factor.Some? && last.factor.value.TotpStep? && last.factor.value.user == user
        && last.factor.value.secret == secret && t1 <= last.at <= t2
      then front + [last.factor.value.step] else front
  }

  ghost predicate StepsSound(log: seq<Use>) {
    && (forall i :: 0 <= i < |log| ==> WellFormed(log[i]))
    && forall i, j :: 0 <= i < j < |log| ==> StepsInOrder(log[i], log[j])
  }

  ghost predicate IncreasesWithin(xs: seq<int>, lo: int, hi: int) {
    && (forall k :: 0 <= k < |xs| ==> lo <= xs[k] <= hi)
    && forall k, l :: 0 <= k < l < |xs| ==> xs[k] < xs[l]
  }

  lemma {:induction false} AcceptedStepsAreLogged(log: seq<Use>, user: UserId, secret: Secret, t1: int, t2: int, step: int)
    requires step in AcceptedSteps(log, user, secret, t1, t2)
    ensures Logged(log, TotpStep(user, secret, step))
  {
    var front, last := log[..|log| - 1], log[|log| - 1];
    if step in AcceptedSteps(front, user, secret, t1, t2) {
      AcceptedStepsAreLogged(front, user, secret, t1, t2, step);
      var i :| 0 <= i < |front| && front[i].factor == Some(TotpStep(user, secret, step));
      assert log[i].factor == Some(TotpStep(user, secret, step));
    } else {
      assert last.factor == Some(TotpStep(user, secret, step));
    }
  }

  lemma {:induction false} AcceptedStepsIncrease(log: seq<Use>, user: UserId, secret: Secret, t1: int, t2: int)
    requires StepsSound(log)
    ensures IncreasesWithin(AcceptedSteps(log, user, secret, t1, t2), CounterFor(t1) - 1, CounterFor(t2) + 1)
  {
    if log != [] {
      var front, last := log[..|log| - 1], log[|log| - 1];
      AcceptedStepsIncrease(front, user, secret, t1, t2);
      var before, steps := AcceptedSteps(front, user, secret, t1, t2), AcceptedSteps(log, user, secret, t1, t2);
      assert WellFormed(last);
      if steps != before {
        forall k | 0 <= k < |before| ensures before[k] < last.factor.value.step {
          AcceptedStepsAreLogged(front, user, secret, t1, t2, before[k]);
          var i :| 0 <= i < |front| && front[i].factor == Some(TotpStep(user, secret, before[k]));
          assert StepsInOrder(log[i], log[|log| - 1]);
        }
      }
    }
  }

  lemma {:induction false} IncreasingIsShort(xs: seq<int>, lo: int, hi: int)
    requires IncreasesWithin(xs, lo, hi) && lo <= hi + 1
    ensures |xs| <= hi - lo + 1
  {
    if xs != [] {
      IncreasingIsShort(xs[..|xs| - 1], lo, xs[|xs| - 1] - 1);
    }
  }

  /** Between two times an enrolment accepts at most as many codes as there are steps between them, plus three. */
  lemma AcceptancesAreBounded(w: World, user: UserId, secret: Secret, t1: int, t2: int)
    requires Sound(w) && t1 <= t2
    ensures |AcceptedSteps(w.log, user, secret, t1, t2)| <= t2 / TOTP_INTERVAL_SECONDS - t1 / TOTP_INTERVAL_SECONDS + 3
  {
    var steps := AcceptedSteps(w.log, user, secret, t1, t2);
    AcceptedStepsIncrease(w.log, user, secret, t1, t2);
    IncreasingIsShort(steps, CounterFor(t1) - 1, CounterFor(t2) + 1);
  }

  /**
   * In every reachable state, the codes left to an enrolment and those of its codes some sign-in or other use is
   * on record for add up to ten.
   */
  lemma RemainingPlusConsumedIsTen(w: World, user: UserId)
    requires Sound(w) && user in w.s.tables.mfa
    ensures var t := w.s.tables;
      && |UnusedCodes(t, user)| + |set k | k in RowsOf(t, user) && Logged(w.log, RecoveryCode(k.0, k.1))| == RECOVERY_CODE_COUNT
      && (forall k :: k in UnusedCodes(t, user) ==> !Logged(w.log, RecoveryCode(k.0, k.1)))
  {
    var t := w.s.tables;
    var consumed := set k | k in RowsOf(t, user) && Logged(w.log, RecoveryCode(k.0, k.1));
    forall k | k in RowsOf(t, user)
      ensures Logged(w.log, RecoveryCode(k.0, k.1)) <==> t.recovery[k].Some?
    {
      if i :| 0 <= i < |w.log| && w.log[i].factor == Some(RecoveryCode(k.0, k.1)) {
        assert Spent(w, w.log[i].factor.value);
      }
    }
    assert UnusedCodes(t, user) + consumed == RowsOf(t, user) && UnusedCodes(t, user) !! consumed;
  }

}
