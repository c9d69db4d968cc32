/**
 * Every interleaving of any number of refresh requests with logins, logouts, replays and deletions. A refresh
 * is its reads, each seeing what is committed at that moment, and one write that the unique index on used
 * digests and the session row's foreign key may turn away. A revocation is a read of the unrevoked rows and a
 * later write to them by primary key.
 */
module SessionRuns {
  import opened Wrappers
  import opened Tokens
  import opened Sessions

  type Handler = nat

  /** How a handler ends: with an answer, or by raising. */
  datatype Ending = Answered | Raised

  /** Whose transaction handlers write in: one of each request's own, or their caller's, which outlives them. */
  datatype Scope = RequestTransaction | CallersTransaction

  /** A request's own transaction is rolled back when its handler raises. */
  predicate Stands(scope: Scope, ending: Ending) {
    scope.CallersTransaction? || ending.Answered?
  }

  /** How far a request has got; a stamping one read its sessions as unrevoked. */
  datatype Phase =
    | Probed(token: Token)
    | Found(token: Token, sid: SessionId, user: UserId)
    | Ready(token: Token, sid: SessionId)
    | Replaying(sid: SessionId)
    | Stamping(sids: set<SessionId>, ending: Ending)

  /** One successful rotation, in the order they commit. */
  datatype Rotation = Rotation(sid: SessionId, from: Token, to: Token)

  /**
   * The tables and the requests in flight, with three histories: which session each token was ever issued
   * for, the token each session began with, and the rotations so far.
   */
  datatype World = World(
    scope: Scope, db: Tables, handlers: map<Handler, Phase>,
    issued: map<Token, SessionId>, first: map<SessionId, Token>, rotations: seq<Rotation>)

  datatype Step =
    | SetAccount(user: UserId, active: bool)
    | Login(user: UserId, sid: SessionId, minted: Token, now: int)
    | ProbeUsed(h: Handler, token: Token)
    | FindSession(h: Handler, sid: SessionId, now: int)
    | CheckAccount(h: Handler)
    | Rotate(h: Handler, minted: Token, now: int)
    | ReadReplayed(h: Handler)
    | Logout(h: Handler, sid: SessionId)
    | LogoutEverywhere(h: Handler, user: UserId)
    | Stamp(h: Handler, now: int)
    | DeleteAccount(user: UserId)

  function Empty(scope: Scope): World {
    World(scope, Tables(map[], map[], map[]), map[], map[], map[], [])
  }

  function SessionsOf(db: Tables, user: UserId): set<SessionId> {
    set s | s in db.sessions && db.sessions[s].user == user
  }

  function Unrevoked(db: Tables, among: set<SessionId>): set<SessionId> {
    set s | s in among && s in db.sessions && db.sessions[s].revokedAt.None?
  }

  /** `UPDATE ... SET revoked_at = now WHERE id = ...` for each, whatever the rows say by then. */
  function Stamped(db: Tables, sids: set<SessionId>, now: int): Tables {
    db.(sessions := map s | s in db.sessions ::
      if s in sids then db.sessions[s].(revokedAt := Some(now)) else db.sessions[s])
  }

  /** A step that does not apply changes nothing. Session ids and minted tokens are fresh. */
  function Apply(w: World, step: Step): World {
    match step
    case SetAccount(user, active) => w.(db := w.db.(accounts := w.db.accounts[user := active]))
    case Login(user, sid, minted, now) =>
      if sid in w.first || minted in w.issued || user !in w.db.accounts then w
      else w.(
        db := Opened(w.db, user, sid, minted, now),
        issued := w.issued[minted := sid], first := w.first[sid := minted])
    case ProbeUsed(h, token) =>
      if h in w.handlers then w
      else if Sha256(token) in w.db.used then w.(handlers := w.handlers[h := Replaying(w.db.used[Sha256(token)])])
      else w.(handlers := w.handlers[h := Probed(token)])
    case FindSession(h, sid, now) =>
      if h !in w.handlers || !w.handlers[h].Probed? then w
      else if sid in w.db.sessions && w.db.sessions[sid].refreshDigest == Sha256(w.handlers[h].token)
        && IsActive(w.db.sessions[sid], now)
      then w.(handlers := w.handlers[h := Found(w.handlers[h].token, sid, w.db.sessions[sid].user)])
      else w.(handlers := w.handlers - {h})
    case CheckAccount(h) =>
      if h !in w.handlers || !w.handlers[h].Found? then w
      else if AccountActive(w.db, w.handlers[h].user)
      then w.(handlers := w.handlers[h := Ready(w.handlers[h].token, w.handlers[h].sid)])
      else w.(handlers := w.handlers - {h})
    case Rotate(h, minted, now) =>
      if h !in w.handlers || !w.handlers[h].Ready? || minted in w.issued then w
      else
        var Ready(token, sid) := w.handlers[h];
        if Sha256(token) in w.db.used || sid !in w.db.sessions then w.(handlers := w.handlers - {h})
        else World(
          w.scope, Rotated(w.db, sid, token, minted, now), w.handlers - {h},
          w.issued[minted := sid], w.first, w.rotations + [Rotation(sid, token, minted)])
    case ReadReplayed(h) =>
      if h !in w.handlers || !w.handlers[h].Replaying? then w
      else w.(handlers := w.handlers[h := Stamping(Unrevoked(w.db, {w.handlers[h].sid}), Raised)])
    case Logout(h, sid) =>
      if h in w.handlers then w
      else w.(handlers := w.handlers[h := Stamping(Unrevoked(w.db, {sid}), Answered)])
    case LogoutEverywhere(h, user) =>
      if h in w.handlers then w
      else w.(handlers := w.handlers[h := Stamping(Unrevoked(w.db, SessionsOf(w.db, user)), Answered)])
    case Stamp(h, now) =>
      if h !in w.handlers || !w.handlers[h].Stamping? then w
      else w.(
        db := if Stands(w.scope, w.handlers[h].ending) then Stamped(w.db, w.handlers[h].sids, now) else w.db,
        handlers := w.handlers - {h})
    case DeleteAccount(user) => w.(db := Deleted(w.db, user))
  }

  function Run(w: World, steps: seq<Step>): World {
    if steps == [] then w else Apply(Run(w, steps[..|steps| - 1]), steps[|steps| - 1])
  }

  // ----- the invariant -----

  /** The token a session's rotations lead to. */
  function Tip(first: Token, rotations: seq<Rotation>, sid: SessionId): Token {
    if rotations == [] then first
    else if rotations[|rotations| - 1].sid == sid then rotations[|rotations| - 1].to
    else Tip(first, rotations[..|rotations| - 1], sid)
  }

  /** Each rotation starts from the token its session's earlier rotations lead to: chains, not trees. */
  ghost predicate Linear(first: map<SessionId, Token>, rotations: seq<Rotation>) {
    rotations == [] ||
    var front, last := rotations[..|rotations| - 1], rotations[|rotations| - 1];
    Linear(first, front) && last.sid in first && last.from == Tip(first[last.sid], front, last.sid)
  }

  /** No token is rotated twice, and none is minted twice. */
  ghost predicate EachRotatedOnce(rotations: seq<Rotation>) {
    forall i, j :: 0 <= i < j < |rotations| ==>
      rotations[i].from != rotations[j].from && rotations[i].to != rotations[j].to
  }

  /**
   * A token ever issued for a session that still exists is either that session's current one or recorded used
   * for that session, never both; the tables mention no other tokens.
   */
  ghost predicate TokensAccounted(w: World) {
    && (forall t :: t in w.issued ==>
      var sid := w.issued[t];
      && sid in w.first
      && (sid in w.db.sessions ==>
        (w.db.sessions[sid].refreshDigest == Sha256(t)) != (Sha256(t) in w.db.used && w.db.used[Sha256(t)] == sid)))
    && (forall sid :: sid in w.db.sessions ==>
      var t := w.db.sessions[sid].refreshDigest.token;
      sid in w.first && t in w.issued && w.issued[t] == sid)
    && forall d :: d in w.db.used ==>
      w.db.used[d] in w.db.sessions && d.token in w.issued && w.issued[d.token] == w.db.used[d]
  }

  ghost predicate HandlersAccounted(w: World) {
    forall h :: h in w.handlers ==>
      match w.handlers[h]
      case Found(token, sid, user) => token in w.issued && w.issued[token] == sid
      case Ready(token, sid) => token in w.issued && w.issued[token] == sid
      case _ => true
  }

  ghost predicate ChainsAccounted(w: World) {
    && Linear(w.first, w.rotations)
    && EachRotatedOnce(w.rotations)
    && (forall i :: 0 <= i < |w.rotations| ==>
      var r := w.rotations[i];
      && r.from in w.issued && w.issued[r.from] == r.sid && r.to in w.issued
      && (r.sid in w.db.sessions ==> Sha256(r.from) in w.db.used))
    && forall sid :: sid in w.db.sessions ==>
      sid in w.first && w.db.sessions[sid].refreshDigest == Sha256(Tip(w.first[sid], w.rotations, sid))
  }

  ghost predicate Sound(w: World) {
    TokensAccounted(w) && HandlersAccounted(w) && ChainsAccounted(w)
  }

  /** Current digests are distinct across sessions, so the digest lookup never has two answers. */
  lemma SoundHasUniqueDigests(w: World)
    requires Sound(w)
    ensures UniqueDigests(w.db)
  {
  }

  lemma TipOfOther(first: Token, rotations: seq<Rotation>, r: Rotation, sid: SessionId)
    ensures Tip(first, rotations + [r], sid) == if r.sid == sid then r.to else Tip(first, rotations, sid)
  {
    assert (rotations + [r])[..|rotations|] == rotations;
  }

  lemma {:induction false} LinearWithMoreSessions(first: map<SessionId, Token>, rotations: seq<Rotation>, sid: SessionId, t: Token)
    requires Linear(first, rotations) && sid !in first
    ensures Linear(first[sid := t], rotations)
  {
    if rotations != [] {
      LinearWithMoreSessions(first, rotations[..|rotations| - 1], sid, t);
    }
  }

  lemma {:induction false} TipOfNewcomer(first: map<SessionId, Token>, rotations: seq<Rotation>, sid: SessionId, t: Token)
    requires Linear(first, rotations) && sid !in first
    ensures Tip(t, rotations, sid) == t
  {
    if rotations != [] {
      TipOfNewcomer(first, rotations[..|rotations| - 1], sid, t);
    }
  }

  lemma LoginKeepsSound(w: World, user: UserId, sid: SessionId, minted: Token, now: int)
    requires Sound(w)
    ensures Sound(Apply(w, Login(user, sid, minted, now)))
  {
    if sid !in w.first {
      LinearWithMoreSessions(w.first, w.rotations, sid, minted);
      TipOfNewcomer(w.first, w.rotations, sid, minted);
    }
  }

  /**
   * The heart of it: a write that gets past the unique index presents its session's current token, however
   * long ago it was looked up.
   */
  lemma WritersHoldTheTip(w: World, h: Handler)
    requires Sound(w) && h in w.handlers && w.handlers[h].Ready?
    requires Sha256(w.handlers[h].token) !in w.db.used && w.handlers[h].sid in w.db.sessions
    ensures w.db.sessions[w.handlers[h].sid].refreshDigest == Sha256(w.handlers[h].token)
    ensures forall i :: 0 <= i < |w.rotations| ==> w.rotations[i].from != w.handlers[h].token
  {
  }

  lemma RotateKeepsTokens(w: World, h: Handler, minted: Token, now: int)
    requires Sound(w)
    ensures TokensAccounted(Apply(w, Rotate(h, minted, now)))
  {
    if h in w.handlers && w.handlers[h].Ready? && minted !in w.issued
      && Sha256(w.handlers[h].token) !in w.db.used && w.handlers[h].sid in w.db.sessions
    {
      WritersHoldTheTip(w, h);
    }
  }

  lemma RotateKeepsHandlers(w: World, h: Handler, minted: Token, now: int)
    requires HandlersAccounted(w)
    ensures HandlersAccounted(Apply(w, Rotate(h, minted, now)))
  {
  }

  /** Recording a rotation of a session's current token moves that session's tip and no other. */
  lemma RotationExtendsItsChain(w: World, sid: SessionId, token: Token, minted: Token)
    requires Sound(w) && sid in w.db.sessions && w.db.sessions[sid].refreshDigest == Sha256(token)
    ensures Linear(w.first, w.rotations + [Rotation(sid, token, minted)])
    ensures forall s :: s in w.db.sessions ==>
      && s in w.first
      && Tip(w.first[s], w.rotations + [Rotation(sid, token, minted)], s)
        == if s == sid then minted else w.db.sessions[s].refreshDigest.token
  {
    var r := Rotation(sid, token, minted);
    assert (w.rotations + [r])[..|w.rotations|] == w.rotations;
    forall s | s in w.db.sessions
      ensures s in w.first && Tip(w.first[s], w.rotations + [r], s) == if s == sid then minted else w.db.sessions[s].refreshDigest.token
    {
      TipOfOther(w.first[s], w.rotations, r, s);
    }
  }

  lemma RotationIsNew(w: World, token: Token, sid: SessionId, minted: Token)
    requires Sound(w) && minted !in w.issued
    requires forall i :: 0 <= i < |w.rotations| ==> w.rotations[i].from != token
    ensures EachRotatedOnce(w.rotations + [Rotation(sid, token, minted)])
  {
  }

  lemma RotationsStayAccounted(w: World, w': World, sid: SessionId, token: Token, minted: Token)
    requires ChainsAccounted(w) && token in w.issued && w.issued[token] == sid && minted !in w.issued
    requires w'.issued == w.issued[minted := sid] && w'.rotations == w.rotations + [Rotation(sid, token, minted)]
    requires w'.db.used == w.db.used[Sha256(token) := sid] && w'.db.sessions.Keys == w.db.sessions.Keys
    ensures forall i :: 0 <= i < |w'.rotations| ==>
      var r := w'.rotations[i];
      && r.from in w'.issued && w'.issued[r.from] == r.sid && r.to in w'.issued
      && (r.sid in w'.db.sessions ==> Sha256(r.from) in w'.db.used)
  {
    forall i | 0 <= i < |w'.rotations|
      ensures var r := w'.rotations[i];
        && r.from in w'.issued && w'.issued[r.from] == r.sid && r.to in w'.issued
        && (r.sid in w'.db.sessions ==> Sha256(r.from) in w'.db.used)
    {
      if i < |w.rotations| {
        assert w'.rotations[i] == w.rotations[i];
      }
    }
  }

  lemma RotateKeepsChains(w: World, h: Handler, minted: Token, now: int)
    requires Sound(w)
    ensures ChainsAccounted(Apply(w, Rotate(h, minted, now)))
  {
    if h in w.handlers && w.handlers[h].Ready? && minted !in w.issued {
      var Ready(token, sid) := w.handlers[h];
      if Sha256(token) !in w.db.used && sid in w.db.sessions {
        WritersHoldTheTip(w, h);
        RotationExtendsItsChain(w, sid, token, minted);
        RotationIsNew(w, token, sid, minted);
        RotationsStayAccounted(w, Apply(w, Rotate(h, minted, now)), sid, token, minted);
      }
    }
  }

  /** Nothing that leaves every session's token, every used digest and the histories alone can break the invariant. */
  lemma SameTokensSameSoundness(w: World, w': World)
    requires Sound(w) && HandlersAccounted(w')
    requires w'.issued == w.issued && w'.first == w.first && w'.rotations == w.rotations
    requires w'.db.used == w.db.used && w'.db.sessions.Keys == w.db.sessions.Keys
    requires forall s :: s in w.db.sessions ==> w'.db.sessions[s].refreshDigest == w.db.sessions[s].refreshDigest
    ensures Sound(w')
  {
  }

  /** The steps left over once logins, rotations and deletions are set aside touch none of those. */
  lemma QuietStep(w: World, step: Step)
    requires !step.Login? && !step.Rotate? && !step.DeleteAccount?
    ensures var w' := Apply(w, step);
      && w'.issued == w.issued && w'.first == w.first && w'.rotations == w.rotations
      && w'.db.used == w.db.used && w'.db.sessions.Keys == w.db.sessions.Keys
      && forall s :: s in w.db.sessions ==> w'.db.sessions[s].refreshDigest == w.db.sessions[s].refreshDigest
  {
  }

  lemma QuietStepKeepsHandlers(w: World, step: Step)
    requires !step.Login? && !step.Rotate? && !step.DeleteAccount?
    requires TokensAccounted(w) && HandlersAccounted(w)
    ensures HandlersAccounted(Apply(w, step))
  {
  }

  lemma DeleteKeepsSound(w: World, user: UserId)
    requires Sound(w)
    ensures Sound(Apply(w, DeleteAccount(user)))
  {
  }

  lemma StepKeepsSound(w: World, step: Step)
    requires Sound(w)
    ensures Sound(Apply(w, step))
  {
    match step
    case Login(user, sid, minted, now) => LoginKeepsSound(w, user, sid, minted, now);
    case Rotate(h, minted, now) =>
      RotateKeepsTokens(w, h, minted, now);
      RotateKeepsHandlers(w, h, minted, now);
      RotateKeepsChains(w, h, minted, now);
    case DeleteAccount(user) => DeleteKeepsSound(w, user);
    case _ =>
      QuietStep(w, step);
      QuietStepKeepsHandlers(w, step);
      SameTokensSameSoundness(w, Apply(w, step));
  }

  lemma {:induction false} RunKeepsSound(w: World, steps: seq<Step>)
    requires Sound(w)
    ensures Sound(Run(w, steps))
  {
    if steps != [] {
      RunKeepsSound(w, steps[..|steps| - 1]);
      StepKeepsSound(Run(w, steps[..|steps| - 1]), steps[|steps| - 1]);
    }
  }

  /**
   * Under every interleaving: each refresh token is rotated at most once, no session's chain of tokens ever
   * forks, and every issued token is current or recorded used for its own session, never both.
   */
  lemma EveryInterleavingIsSound(scope: Scope, steps: seq<Step>)
    ensures var w := Run(Empty(scope), steps);
      && EachRotatedOnce(w.rotations) && Linear(w.first, w.rotations)
      && TokensAccounted(w) && UniqueDigests(w.db)
  {
    RunKeepsSound(Empty(scope), steps);
    SoundHasUniqueDigests(Run(Empty(scope), steps));
  }

  // ----- the service functions, uninterrupted -----

  lemma RunTwo(w: World, a: Step, b: Step)
    ensures Run(w, [a, b]) == Apply(Apply(w, a), b)
  {
    assert [a, b][..1] == [a] && [a][..0] == [];
    assert Run(w, [a]) == Apply(w, a);
  }

  lemma {:induction false} RunAppend(w: World, xs: seq<Step>, ys: seq<Step>)
    ensures Run(w, xs + ys) == Run(Run(w, xs), ys)
  {
    if ys == [] {
      assert xs + ys == xs;
    } else {
      RunAppend(w, xs, ys[..|ys| - 1]);
      assert (xs + ys)[..|xs + ys| - 1] == xs + ys[..|ys| - 1];
    }
  }

  lemma TheReadsFindIt(w: World, h: Handler, token: Token, sid: SessionId, now: int)
    requires h !in w.handlers && Rotates(w.db, token, now, sid)
    ensures Apply(Apply(w, ProbeUsed(h, token)), FindSession(h, sid, now))
      == w.(handlers := w.handlers[h := Found(token, sid, w.db.sessions[sid].user)])
  {
    var found := Found(token, sid, w.db.sessions[sid].user);
    assert w.handlers[h := Probed(token)][h := found] == w.handlers[h := found];
  }

  lemma TheWriteCommits(w: World, h: Handler, token: Token, sid: SessionId, minted: Token, now: int)
    requires h !in w.handlers && minted !in w.issued && Rotates(w.db, token, now, sid)
    ensures var found := w.(handlers := w.handlers[h := Found(token, sid, w.db.sessions[sid].user)]);
      var w' := Apply(Apply(found, CheckAccount(h)), Rotate(h, minted, now));
      && w'.db == Rotated(w.db, sid, token, minted, now)
      && w'.handlers == w.handlers
      && w'.rotations == w.rotations + [Rotation(sid, token, minted)]
  {
    var found := w.handlers[h := Found(token, sid, w.db.sessions[sid].user)];
    assert found[h := Ready(token, sid)] - {h} == w.handlers;
  }

  /**
   * The service function is this protocol run by one request with nobody in between: what
   * `Sessions.SessionService.RefreshSession` does to the tables when it rotates, the four steps do.
   */
  lemma UninterruptedRefreshRotates(w: World, h: Handler, token: Token, sid: SessionId, minted: Token, now: int)
    requires h !in w.handlers && minted !in w.issued && Rotates(w.db, token, now, sid)
    ensures var w' := Run(w, [ProbeUsed(h, token), FindSession(h, sid, now)] + [CheckAccount(h), Rotate(h, minted, now)]);
      && w'.db == Rotated(w.db, sid, token, minted, now)
      && w'.handlers == w.handlers
      && w'.rotations == w.rotations + [Rotation(sid, token, minted)]
  {
    var found := w.(handlers := w.handlers[h := Found(token, sid, w.db.sessions[sid].user)]);
    TheReadsFindIt(w, h, token, sid, now);
    TheWriteCommits(w, h, token, sid, minted, now);
    RunAppend(w, [ProbeUsed(h, token), FindSession(h, sid, now)], [CheckAccount(h), Rotate(h, minted, now)]);
    RunTwo(w, ProbeUsed(h, token), FindSession(h, sid, now));
    RunTwo(found, CheckAccount(h), Rotate(h, minted, now));
  }

  /** So is a logout: its read and its write, with nobody in between, revoke as the service function does. */
  lemma UninterruptedLogoutRevokes(w: World, h: Handler, sid: SessionId, now: int)
    requires h !in w.handlers
    ensures Run(w, [Logout(h, sid), Stamp(h, now)]) == w.(db := Revoked(w.db, sid, now))
  {
    RunTwo(w, Logout(h, sid), Stamp(h, now));
    assert Stamped(w.db, Unrevoked(w.db, {sid}), now).sessions == Revoked(w.db, sid, now).sessions;
    assert Apply(w, Logout(h, sid)).handlers - {h} == w.handlers;
  }

  lemma UninterruptedLogoutEverywhereRevokes(w: World, h: Handler, user: UserId, now: int)
    requires h !in w.handlers
    ensures Run(w, [LogoutEverywhere(h, user), Stamp(h, now)]) == w.(db := AllRevoked(w.db, user, now))
  {
    RunTwo(w, LogoutEverywhere(h, user), Stamp(h, now));
    assert Stamped(w.db, Unrevoked(w.db, SessionsOf(w.db, user)), now).sessions == AllRevoked(w.db, user, now).sessions;
    assert Apply(w, LogoutEverywhere(h, user)).handlers - {h} == w.handlers;
  }

}
