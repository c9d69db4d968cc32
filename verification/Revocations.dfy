/**
 * What ends a session, and what that end is worth: revocations that overlap with refreshes and with each
 * other, replays inside and outside a request transaction, and the thirty days no refresh extends.
 */
module Revocations {
  import opened Wrappers
  import opened Tokens
  import opened Sessions
  import opened SessionRuns

  // ----- a revocation is never lost -----

  /** Request `h` read this session as unrevoked and is about to write its revocation. */
  predicate Stamps(w: World, h: Handler, sid: SessionId) {
    && h in w.handlers && w.handlers[h].Stamping?
    && sid in w.handlers[h].sids && Stands(w.scope, w.handlers[h].ending)
  }

  /** Only a request that reads the session while it is unrevoked can come to write its revocation. */
  lemma StampersReadItUnrevoked(w: World, step: Step, h: Handler, sid: SessionId)
    requires Stamps(Apply(w, step), h, sid) && !Stamps(w, h, sid)
    ensures sid in w.db.sessions && w.db.sessions[sid].revokedAt.None?
    ensures step.ReadReplayed? || step == Logout(h, sid) || step == LogoutEverywhere(h, w.db.sessions[sid].user)
    ensures step.ReadReplayed? ==> w.scope.CallersTransaction?
  {
  }

  /** A step changes a session's revocation time exactly when it is such a write, of another time. */
  lemma RevocationMovesIff(w: World, step: Step, sid: SessionId)
    requires sid in w.db.sessions && sid in w.first && sid in Apply(w, step).db.sessions
    ensures var before, after := w.db.sessions[sid].revokedAt, Apply(w, step).db.sessions[sid].revokedAt;
      && (after != before <==> step.Stamp? && Stamps(w, step.h, sid) && before != Some(step.now))
      && (after != before ==> after == Some(step.now))
  {
  }

  /** A session's account and expiry are what its login wrote. */
  lemma StepKeepsColumns(w: World, step: Step, sid: SessionId)
    requires sid in w.first
    ensures sid in Apply(w, step).first
    ensures sid in Apply(w, step).db.sessions ==>
      && sid in w.db.sessions
      && Apply(w, step).db.sessions[sid].user == w.db.sessions[sid].user
      && Apply(w, step).db.sessions[sid].expiresAt == w.db.sessions[sid].expiresAt
  {
  }

  lemma {:induction false} RunKeepsColumns(w: World, steps: seq<Step>, sid: SessionId)
    requires sid in w.first
    ensures sid in Run(w, steps).first && Run(w, steps).scope == w.scope
    ensures sid in Run(w, steps).db.sessions ==>
      && sid in w.db.sessions
      && Run(w, steps).db.sessions[sid].user == w.db.sessions[sid].user
      && Run(w, steps).db.sessions[sid].expiresAt == w.db.sessions[sid].expiresAt
  {
    if steps != [] {
      RunKeepsColumns(w, steps[..|steps| - 1], sid);
      StepKeepsColumns(Run(w, steps[..|steps| - 1]), steps[|steps| - 1], sid);
    }
  }

  /** Step `i` of a run writes the session's revocation. */
  ghost predicate StampedAt(w: World, steps: seq<Step>, i: nat, sid: SessionId) {
    i < |steps| && steps[i].Stamp? && Stamps(Run(w, steps[..i]), steps[i].h, sid)
  }

  /**
   * Over every run, whatever overlaps: a session that still exists is revoked exactly when it was at the
   * start or some revocation's write came since. Nothing undoes one.
   */
  lemma {:induction false} RevokedIffStamped(w: World, steps: seq<Step>, sid: SessionId)
    requires sid in w.first && sid in Run(w, steps).db.sessions
    ensures sid in w.db.sessions
    ensures Run(w, steps).db.sessions[sid].revokedAt.Some?
      <==> w.db.sessions[sid].revokedAt.Some? || exists i: nat :: StampedAt(w, steps, i, sid)
  {
    RunKeepsColumns(w, steps, sid);
    if steps != [] {
      var front, last := steps[..|steps| - 1], steps[|steps| - 1];
      RunKeepsColumns(w, front, sid);
      StepKeepsColumns(Run(w, front), last, sid);
      RevokedIffStamped(w, front, sid);
      RevocationMovesIff(Run(w, front), last, sid);
      StampedInFront(w, steps, sid);
    }
  }

  lemma StampedInFront(w: World, steps: seq<Step>, sid: SessionId)
    requires steps != []
    ensures var front, last := steps[..|steps| - 1], steps[|steps| - 1];
      (exists i: nat :: StampedAt(w, steps, i, sid))
      <==> (exists i: nat :: StampedAt(w, front, i, sid)) || (last.Stamp? && Stamps(Run(w, front), last.h, sid))
  {
    var front := steps[..|steps| - 1];
    if i: nat :| StampedAt(w, steps, i, sid) {
      if i < |front| {
        assert front[..i] == steps[..i];
        assert StampedAt(w, front, i, sid);
      }
    }
    if i: nat :| StampedAt(w, front, i, sid) {
      assert front[..i] == steps[..i];
      assert StampedAt(w, steps, i, sid);
    }
    if steps[|front|].Stamp? && Stamps(Run(w, front), steps[|front|].h, sid) {
      assert StampedAt(w, steps, |front|, sid);
    }
  }

  /** A committed revocation is never lost, whatever was in flight: no access token of the session is let in again. */
  lemma RevocationIsForGood(w: World, steps: seq<Step>, sid: SessionId, t: int)
    requires sid in w.first && (sid in w.db.sessions ==> w.db.sessions[sid].revokedAt.Some?)
    ensures sid in Run(w, steps).db.sessions ==> Run(w, steps).db.sessions[sid].revokedAt.Some?
    ensures Loaded(Run(w, steps).db, sid, t).None?
  {
    if sid in Run(w, steps).db.sessions {
      RevokedIffStamped(w, steps, sid);
    }
  }

  // ----- but it can be re-dated -----

  /** Once a session is revoked nobody else starts to revoke it. */
  lemma {:induction false} NobodyStartsStamping(w: World, steps: seq<Step>, sid: SessionId)
    requires sid in w.first && (sid in w.db.sessions ==> w.db.sessions[sid].revokedAt.Some?)
    requires forall h :: !Stamps(w, h, sid)
    ensures var w' := Run(w, steps);
      && sid in w'.first
      && (forall h :: !Stamps(w', h, sid))
      && (sid in w'.db.sessions ==> sid in w.db.sessions && w'.db.sessions[sid].revokedAt == w.db.sessions[sid].revokedAt)
  {
    if steps != [] {
      var mid, last := Run(w, steps[..|steps| - 1]), steps[|steps| - 1];
      NobodyStartsStamping(w, steps[..|steps| - 1], sid);
      StepKeepsColumns(mid, last, sid);
      if h :| Stamps(Apply(mid, last), h, sid) {
        StampersReadItUnrevoked(mid, last, h, sid);
      }
      if sid in Apply(mid, last).db.sessions {
        RevocationMovesIff(mid, last, sid);
      }
    }
  }

  /**
   * A committed revocation's time can still change exactly while some request that read the session as
   * unrevoked, before that commit, has yet to write.
   */
  lemma RevocationIsRedatedIff(w: World, sid: SessionId)
    requires sid in w.first && sid in w.db.sessions && w.db.sessions[sid].revokedAt.Some?
    ensures (exists steps :: Redates(w, steps, sid)) <==> exists h :: Stamps(w, h, sid)
  {
    if h :| Stamps(w, h, sid) {
      var stamp := Stamp(h, w.db.sessions[sid].revokedAt.value + 1);
      RevocationMovesIff(w, stamp, sid);
      assert [stamp][..0] == [];
      assert Run(w, [stamp]) == Apply(w, stamp);
      assert Redates(w, [stamp], sid);
    } else {
      forall steps ensures !Redates(w, steps, sid) {
        NobodyStartsStamping(w, steps, sid);
      }
    }
  }

  /** Two logouts that both read the session as unrevoked: the later write's time is the one that stays. */
  lemma OverlappingLogoutsRedate(w: World, sid: SessionId, h1: Handler, h2: Handler, t1: int, t2: int)
    requires sid in w.db.sessions && w.db.sessions[sid].revokedAt.None?
    requires h1 != h2 && h1 !in w.handlers && h2 !in w.handlers
    ensures var first := Run(w, [Logout(h1, sid), Logout(h2, sid)] + [Stamp(h1, t1)]);
      && sid in first.db.sessions && first.db.sessions[sid].revokedAt == Some(t1)
      && sid in Apply(first, Stamp(h2, t2)).db.sessions && Apply(first, Stamp(h2, t2)).db.sessions[sid].revokedAt == Some(t2)
  {
    RunAppend(w, [Logout(h1, sid), Logout(h2, sid)], [Stamp(h1, t1)]);
    RunTwo(w, Logout(h1, sid), Logout(h2, sid));
    var read := Run(w, [Logout(h1, sid), Logout(h2, sid)]);
    assert [Stamp(h1, t1)][..0] == [];
    assert Run(read, [Stamp(h1, t1)]) == Apply(read, Stamp(h1, t1));
    assert sid in Unrevoked(w.db, {sid});
  }

  ghost predicate Redates(w: World, steps: seq<Step>, sid: SessionId) {
    && sid in w.db.sessions && sid in Run(w, steps).db.sessions
    && Run(w, steps).db.sessions[sid].revokedAt != w.db.sessions[sid].revokedAt
  }

  // ----- what the gate lets in -----

  /**
   * From its login on, whatever else runs, a session is let in at time `t` exactly when its row is still
   * there, no revocation of it has been written, and thirty days have not passed: no refresh extends it.
   */
  lemma LetInIff(w: World, user: UserId, sid: SessionId, minted: Token, now: int, steps: seq<Step>, t: int)
    requires sid !in w.first && minted !in w.issued && user in w.db.accounts
    ensures var w0 := Apply(w, Login(user, sid, minted, now));
      Loaded(Run(w0, steps).db, sid, t).Some?
      <==> sid in Run(w0, steps).db.sessions && t < now + REFRESH_TOKEN_TTL && !exists i: nat :: StampedAt(w0, steps, i, sid)
  {
    var w0 := Apply(w, Login(user, sid, minted, now));
    RunKeepsColumns(w0, steps, sid);
    if sid in Run(w0, steps).db.sessions {
      RevokedIffStamped(w0, steps, sid);
    }
  }

  /**
   * Whatever follows a login, a session that still exists is that account's: what a refresh issues for it is good
   * for that account and session for fifteen minutes, and logging the account out everywhere ends it.
   */
  lemma SessionsStayTheirOwners(
    w: World, user: UserId, sid: SessionId, minted: Token, now: int, steps: seq<Step>, secret: string, t: int)
    requires sid !in w.first && minted !in w.issued && user in w.db.accounts
    ensures var db := Run(Apply(w, Login(user, sid, minted, now)), steps).db;
      sid in db.sessions ==>
        && db.sessions[sid].user == user && db.sessions[sid].expiresAt == now + 30 * 24 * 60 * 60
        && GoodFor(IssueAccessToken(db.sessions[sid].user, sid, secret, t), secret, user, sid, t + 15 * 60)
        && (forall t' :: Loaded(AllRevoked(db, user, t), sid, t').None?)
        && sid !in Deleted(db, user).sessions
  {
    var w0 := Apply(w, Login(user, sid, minted, now));
    RunKeepsColumns(w0, steps, sid);
    var db := Run(w0, steps).db;
    if sid in db.sessions {
      LogoutEverywhereEndsEach(db, user, t, sid);
    }
  }

  // ----- replays -----

  /** A whole request that presents a used token, with nobody in between. */
  function Replay(h: Handler, token: Token, now: int): seq<Step> {
    [ProbeUsed(h, token), ReadReplayed(h), Stamp(h, now)]
  }

  lemma ReplayRuns(w: World, token: Token, h: Handler, now: int)
    requires h !in w.handlers && Sha256(token) in w.db.used
    ensures Run(w, Replay(h, token, now))
      == w.(db := if w.scope.CallersTransaction? then Revoked(w.db, w.db.used[Sha256(token)], now) else w.db)
  {
    var sid := w.db.used[Sha256(token)];
    assert Replay(h, token, now) == [ProbeUsed(h, token)] + [ReadReplayed(h), Stamp(h, now)];
    RunAppend(w, [ProbeUsed(h, token)], [ReadReplayed(h), Stamp(h, now)]);
    assert [ProbeUsed(h, token)][..0] == [];
    var probed := Apply(w, ProbeUsed(h, token));
    assert Run(w, [ProbeUsed(h, token)]) == probed;
    RunTwo(probed, ReadReplayed(h), Stamp(h, now));
    assert Apply(probed, ReadReplayed(h)).handlers - {h} == w.handlers;
    assert Stamped(w.db, Unrevoked(w.db, {sid}), now).sessions == Revoked(w.db, sid, now).sessions;
  }

  /** In its caller's transaction, presenting a used token revokes exactly the session it was used in. */
  lemma ReplayRevokesItsSession(w: World, token: Token, h: Handler, now: int)
    requires w.scope.CallersTransaction? && h !in w.handlers
    requires Sha256(token) in w.db.used && w.db.used[Sha256(token)] in w.db.sessions
    ensures var sid, w' := w.db.used[Sha256(token)], Run(w, Replay(h, token, now));
      && w' == w.(db := Revoked(w.db, sid, now))
      && sid in w'.db.sessions && w'.db.sessions[sid].revokedAt.Some?
      && forall s :: s in w.db.sessions && s != sid ==> s in w'.db.sessions && w'.db.sessions[s] == w.db.sessions[s]
  {
    ReplayRuns(w, token, h, now);
  }

  /** In a request transaction the same request leaves its session revoked exactly when it already was. */
  lemma RolledBackReplayRevokesNothing(w: World, token: Token, h: Handler, now: int)
    requires w.scope.RequestTransaction? && h !in w.handlers && Sha256(token) in w.db.used
    ensures Run(w, Replay(h, token, now)) == w
  {
    ReplayRuns(w, token, h, now);
  }

  /** So a replay leaves its session revoked exactly when its writes outlive it or the session already was. */
  lemma ReplayEndsItsSessionIff(w: World, token: Token, h: Handler, now: int)
    requires h !in w.handlers && Sha256(token) in w.db.used && w.db.used[Sha256(token)] in w.db.sessions
    ensures var sid, w' := w.db.used[Sha256(token)], Run(w, Replay(h, token, now));
      && sid in w'.db.sessions
      && (w'.db.sessions[sid].revokedAt.Some? <==> w.scope.CallersTransaction? || w.db.sessions[sid].revokedAt.Some?)
  {
    ReplayRuns(w, token, h, now);
  }

  /** A step that asks for this session's revocation and can answer for it. */
  predicate LogsOut(step: Step, sid: SessionId, user: UserId) {
    (step.Logout? && step.sid == sid) || (step.LogoutEverywhere? && step.user == user)
  }

  lemma {:induction false} OnlyLogoutsStamp(w: World, steps: seq<Step>, sid: SessionId)
    requires w.scope.RequestTransaction? && sid in w.first && sid in w.db.sessions && forall h :: !Stamps(w, h, sid)
    requires forall step :: step in steps ==> !LogsOut(step, sid, w.db.sessions[sid].user)
    ensures forall h :: !Stamps(Run(w, steps), h, sid)
    ensures sid in Run(w, steps).db.sessions ==> Run(w, steps).db.sessions[sid].revokedAt == w.db.sessions[sid].revokedAt
  {
    if steps != [] {
      var front, last := steps[..|steps| - 1], steps[|steps| - 1];
      var mid := Run(w, front);
      OnlyLogoutsStamp(w, front, sid);
      RunKeepsColumns(w, front, sid);
      StepKeepsColumns(mid, last, sid);
      assert last in steps;
      if h :| Stamps(Apply(mid, last), h, sid) {
        StampersReadItUnrevoked(mid, last, h, sid);
      }
      if sid in Apply(mid, last).db.sessions {
        RevocationMovesIff(mid, last, sid);
      }
    }
  }

  /**
   * Through the routes, over every run with any number of replays in it, a session with nobody logging it out
   * is afterwards as revoked as it was before: presenting used tokens ends no session.
   */
  lemma ReplaysThroughTheRoutesRevokeNothing(w: World, steps: seq<Step>, sid: SessionId, t: int)
    requires w.scope.RequestTransaction? && sid in w.first && sid in w.db.sessions && forall h :: !Stamps(w, h, sid)
    requires forall step :: step in steps ==> !LogsOut(step, sid, w.db.sessions[sid].user)
    requires sid in Run(w, steps).db.sessions
    ensures Run(w, steps).db.sessions[sid].revokedAt == w.db.sessions[sid].revokedAt
    ensures Loaded(Run(w, steps).db, sid, t).Some? <==> Loaded(w.db, sid, t).Some?
  {
    OnlyLogoutsStamp(w, steps, sid);
    RunKeepsColumns(w, steps, sid);
  }

  // ----- refreshes in flight -----

  /** Request `h` has found this session with `token`. */
  predicate HasFound(w: World, h: Handler, sid: SessionId, token: Token) {
    h in w.handlers && match w.handlers[h]
      case Found(t, s, user) => s == sid && t == token
      case Ready(t, s) => s == sid && t == token
      case _ => false
  }

  /** Request `h` is past its check of this session, with a token nobody has spent yet. */
  predicate Past(w: World, h: Handler, sid: SessionId) {
    h in w.handlers && (w.handlers[h].Found? || w.handlers[h].Ready?)
    && HasFound(w, h, sid, w.handlers[h].token) && Sha256(w.handlers[h].token) !in w.db.used
  }

  /** A session that is gone, or revoked with no refresh past its check. */
  ghost predicate Dead(w: World, sid: SessionId) {
    && sid in w.first
    && (sid in w.db.sessions ==> w.db.sessions[sid].revokedAt.Some? && forall h :: !Past(w, h, sid))
  }

  /** The rotations of one session, in order. */
  function RotationsOf(rotations: seq<Rotation>, sid: SessionId): seq<Rotation> {
    if rotations == [] then []
    else
      var front, last := RotationsOf(rotations[..|rotations| - 1], sid), rotations[|rotations| - 1];
      if last.sid == sid then front + [last] else front
  }

  lemma RotationsOfOneMore(rotations: seq<Rotation>, r: Rotation, sid: SessionId)
    ensures RotationsOf(rotations + [r], sid)
      == if r.sid == sid then RotationsOf(rotations, sid) + [r] else RotationsOf(rotations, sid)
  {
    assert (rotations + [r])[..|rotations|] == rotations;
  }

  /** No step lets a request find a revoked session. */
  lemma NobodyFindsIt(w: World, step: Step, sid: SessionId, h: Handler, token: Token)
    requires sid in w.db.sessions ==> w.db.sessions[sid].revokedAt.Some?
    requires HasFound(Apply(w, step), h, sid, token)
    ensures HasFound(w, h, sid, token)
  {
  }

  /** A used token of a session that survives the step stays used. */
  lemma SpentStaysSpent(w: World, step: Step, sid: SessionId, token: Token)
    requires TokensAccounted(w) && token in w.issued && w.issued[token] == sid && sid in Apply(w, step).db.sessions
    requires Sha256(token) in w.db.used
    ensures Sha256(token) in Apply(w, step).db.used
  {
    if step.DeleteAccount? {
      assert w.db.used[Sha256(token)] == sid;
    } else {
      UsedOnlyGrows(w, step, Sha256(token));
    }
  }

  lemma UsedOnlyGrows(w: World, step: Step, digest: Digest)
    requires !step.DeleteAccount? && digest in w.db.used
    ensures digest in Apply(w, step).db.used
  {
  }

  lemma IssuedStays(w: World, step: Step, token: Token)
    requires token in w.issued
    ensures token in Apply(w, step).issued && Apply(w, step).issued[token] == w.issued[token]
  {
  }

  /** Whatever follows, a token once issued is its session's current one or recorded used for it, and not both. */
  lemma {:induction false} IssuedIsCurrentOrSpent(w: World, steps: seq<Step>, token: Token)
    requires Sound(w) && token in w.issued
    ensures var sid, w' := w.issued[token], Run(w, steps);
      && token in w'.issued && w'.issued[token] == sid
      && (sid in w'.db.sessions ==>
        (w'.db.sessions[sid].refreshDigest == Sha256(token))
          != (Sha256(token) in w'.db.used && w'.db.used[Sha256(token)] == sid))
  {
    RunKeepsSound(w, steps);
    if steps != [] {
      IssuedIsCurrentOrSpent(w, steps[..|steps| - 1], token);
      IssuedStays(Run(w, steps[..|steps| - 1]), steps[|steps| - 1], token);
    }
  }

  /** A used token is recorded used for as long as its session exists, and no longer. */
  lemma {:induction false} SpentWhileItsSessionExists(w: World, steps: seq<Step>, token: Token)
    requires Sound(w) && token in w.issued && Sha256(token) in w.db.used
    ensures var sid, w' := w.issued[token], Run(w, steps);
      && token in w'.issued && w'.issued[token] == sid
      && (Sha256(token) in w'.db.used <==> sid in w'.db.sessions)
      && (Sha256(token) in w'.db.used ==> w'.db.used[Sha256(token)] == sid)
  {
    RunKeepsSound(w, steps);
    if steps != [] {
      var mid, last := Run(w, steps[..|steps| - 1]), steps[|steps| - 1];
      SpentWhileItsSessionExists(w, steps[..|steps| - 1], token);
      RunKeepsSound(w, steps[..|steps| - 1]);
      IssuedStays(mid, last, token);
      if w.issued[token] in Apply(mid, last).db.sessions {
        StepKeepsColumns(mid, last, w.issued[token]);
        SpentStaysSpent(mid, last, w.issued[token], token);
      }
    }
  }

  /** Nothing brings a request past the check of a revoked session. */
  lemma NobodyGetsPast(w: World, step: Step, sid: SessionId, h: Handler)
    requires Sound(w) && (sid in w.db.sessions ==> w.db.sessions[sid].revokedAt.Some?)
    requires sid in Apply(w, step).db.sessions && Past(Apply(w, step), h, sid)
    ensures Past(w, h, sid)
  {
    var token := Apply(w, step).handlers[h].token;
    NobodyFindsIt(w, step, sid, h, token);
    if Sha256(token) in w.db.used {
      SpentStaysSpent(w, step, sid, token);
    }
  }

  /** A step adds at most one rotation, and only for a request past its check. */
  lemma OnlyPastRotates(w: World, step: Step)
    ensures var w' := Apply(w, step);
      || w'.rotations == w.rotations
      || (step.Rotate? && step.h in w.handlers && w.handlers[step.h].Ready?
          && w.handlers[step.h].sid in w.db.sessions
          && Past(w, step.h, w.handlers[step.h].sid)
          && w'.rotations == w.rotations + [Rotation(w.handlers[step.h].sid, w.handlers[step.h].token, step.minted)])
  {
  }

  lemma StepKeepsDead(w: World, step: Step, sid: SessionId)
    requires Sound(w) && Dead(w, sid)
    ensures Dead(Apply(w, step), sid)
    ensures RotationsOf(Apply(w, step).rotations, sid) == RotationsOf(w.rotations, sid)
  {
    var w' := Apply(w, step);
    StepKeepsColumns(w, step, sid);
    if sid in w'.db.sessions {
      RevocationMovesIff(w, step, sid);
    }
    if h :| sid in w'.db.sessions && Past(w', h, sid) {
      NobodyGetsPast(w, step, sid, h);
    }
    OnlyPastRotates(w, step);
    if w'.rotations != w.rotations {
      RotationsOfOneMore(w.rotations, w'.rotations[|w.rotations|], sid);
    }
  }

  /** After that, no continuation rotates any token of the session. */
  lemma {:induction false} DeadSessionsNeverRefresh(w: World, steps: seq<Step>, sid: SessionId)
    requires Sound(w) && Dead(w, sid)
    ensures Dead(Run(w, steps), sid)
    ensures RotationsOf(Run(w, steps).rotations, sid) == RotationsOf(w.rotations, sid)
  {
    if steps != [] {
      DeadSessionsNeverRefresh(w, steps[..|steps| - 1], sid);
      RunKeepsSound(w, steps[..|steps| - 1]);
      StepKeepsDead(Run(w, steps[..|steps| - 1]), steps[|steps| - 1], sid);
    }
  }

  lemma FreshToken(among: set<Token>) returns (t: Token)
    ensures t !in among && forall u :: u in among ==> u < t
  {
    if among == {} {
      t := 0;
    } else {
      var u :| u in among;
      var rest := FreshToken(among - {u});
      t := if u < rest then rest else u + 1;
      assert forall v :: v in among ==> v == u || v in among - {u};
    }
  }

  /** With its account active, a request that has found its session becomes ready to write. */
  lemma FoundBecomesReady(w: World, h: Handler)
    requires h in w.handlers && w.handlers[h].Found?
    ensures var Found(token, sid, user), w' := w.handlers[h], Run(w, [SetAccount(w.handlers[h].user, true), CheckAccount(h)]);
      && h in w'.handlers && w'.handlers[h] == Ready(token, sid)
      && w'.db.sessions == w.db.sessions && w'.db.used == w.db.used
      && w'.issued == w.issued && w'.rotations == w.rotations
  {
    RunTwo(w, SetAccount(w.handlers[h].user, true), CheckAccount(h));
  }

  lemma ReadyCanCommit(w: World, h: Handler, minted: Token)
    requires h in w.handlers && w.handlers[h].Ready? && minted !in w.issued
    requires w.handlers[h].sid in w.db.sessions && Sha256(w.handlers[h].token) !in w.db.used
    ensures var sid, w' := w.handlers[h].sid, Apply(w, Rotate(h, minted, 0));
      RotationsOf(w'.rotations, sid) == RotationsOf(w.rotations, sid) + [Rotation(sid, w.handlers[h].token, minted)]
  {
    RotationsOfOneMore(w.rotations, Rotation(w.handlers[h].sid, w.handlers[h].token, minted), w.handlers[h].sid);
  }

  /** A refresh that was past its check when the session was revoked can still commit. */
  lemma InFlightRefreshCanCommit(w: World, h: Handler, sid: SessionId) returns (steps: seq<Step>)
    requires sid in w.db.sessions && Past(w, h, sid)
    ensures RotationsOf(Run(w, steps).rotations, sid) != RotationsOf(w.rotations, sid)
  {
    var minted := FreshToken(w.issued.Keys);
    steps := [];
    if w.handlers[h].Found? {
      steps := [SetAccount(w.handlers[h].user, true), CheckAccount(h)];
      FoundBecomesReady(w, h);
    }
    ReadyCanCommit(Run(w, steps), h, minted);
    var front := steps;
    steps := front + [Rotate(h, minted, 0)];
    assert steps[..|steps| - 1] == front;
  }

  /** A revoked session can still be refreshed exactly while some request is already past its check. */
  lemma RevokedSessionRefreshesIff(w: World, sid: SessionId)
    requires Sound(w) && sid in w.db.sessions && w.db.sessions[sid].revokedAt.Some?
    ensures (exists steps :: RotationsOf(Run(w, steps).rotations, sid) != RotationsOf(w.rotations, sid))
      <==> exists h :: Past(w, h, sid)
  {
    if h :| Past(w, h, sid) {
      var steps := InFlightRefreshCanCommit(w, h, sid);
    } else {
      forall steps ensures RotationsOf(Run(w, steps).rotations, sid) == RotationsOf(w.rotations, sid) {
        DeadSessionsNeverRefresh(w, steps, sid);
      }
    }
  }

}
