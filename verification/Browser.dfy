/**
 * The browser's API client composed with the server: module-level tokens, one silent refresh per call, and
 * everybody else's requests interleaving with each step of its own.
 */
module Browser {
  import opened Wrappers
  import opened Tokens
  import opened Sessions
  import opened SessionRuns
  import Revocations

  /** What `fetch` comes back with. */
  datatype Reply = Status(code: int) | NetworkError

  predicate Succeeded(reply: Reply) {
    reply.Status? && 200 <= reply.code < 300
  }

  /** One request to an ordinary route: what the server does meanwhile, and what it answers. */
  datatype Hop = Hop(steps: seq<Step>, reply: Reply)

  /**
   * One request to the refresh route: what others do around each of its database steps, and the token and
   * the time it runs with.
   */
  datatype RefreshHop = RefreshHop(
    before: seq<Step>, afterProbe: seq<Step>, afterFind: seq<Step>, afterCheck: seq<Step>, minted: Token, now: int)

  /** Everything the network and the server do during one call of `send`. */
  datatype Script = Script(hop: Hop, refresh: RefreshHop, again: Hop)

  /** The refresh token a request in flight carries. */
  predicate Carries(phase: Phase, token: Token) {
    match phase
    case Probed(t) => t == token
    case Found(t, _, _) => t == token
    case Ready(t, _) => t == token
    case Replaying(_) => false
    case Stamping(_, _) => false
  }

  /** A step of somebody else: it neither presents nor mints any of `mine`, and is not part of request `h`. */
  predicate Foreign(step: Step, h: Handler, mine: set<Token>) {
    match step
    case SetAccount(_, _) => true
    case Login(_, _, minted, _) => minted !in mine
    case ProbeUsed(k, token) => k != h && token !in mine
    case FindSession(k, _, _) => k != h
    case CheckAccount(k) => k != h
    case Rotate(k, minted, _) => k != h && minted !in mine
    case ReadReplayed(k) => k != h
    case Logout(k, _) => k != h
    case LogoutEverywhere(k, _) => k != h
    case Stamp(k, _) => k != h
    case DeleteAccount(_) => true
  }

  predicate AllForeign(steps: seq<Step>, h: Handler, mine: set<Token>) {
    forall i :: 0 <= i < |steps| ==> Foreign(steps[i], h, mine)
  }

  /** The client's tokens, held and yet to be minted for it, are presented and minted by nobody else. */
  predicate ScriptIsForeign(net: Script, h: Handler, mine: set<Token>) {
    && AllForeign(net.hop.steps, h, mine) && AllForeign(net.again.steps, h, mine)
    && AllForeign(net.refresh.before, h, mine) && AllForeign(net.refresh.afterProbe, h, mine)
    && AllForeign(net.refresh.afterFind, h, mine) && AllForeign(net.refresh.afterCheck, h, mine)
  }

  /** Everything up to the refresh request's own write. */
  function ReadSteps(hop: RefreshHop, h: Handler, token: Token, sid: SessionId): seq<Step> {
    hop.before + [ProbeUsed(h, token)] + hop.afterProbe + [FindSession(h, sid, hop.now)]
    + hop.afterFind + [CheckAccount(h)] + hop.afterCheck
  }

  /** A step of somebody else, or a read of request `h` refreshing `token`. */
  predicate Benign(step: Step, h: Handler, token: Token, mine: set<Token>) {
    || Foreign(step, h, mine)
    || step == ProbeUsed(h, token) || (step.FindSession? && step.h == h) || step == CheckAccount(h)
  }

  predicate AllBenign(steps: seq<Step>, h: Handler, token: Token, mine: set<Token>) {
    forall i :: 0 <= i < |steps| ==> Benign(steps[i], h, token, mine)
  }

  /** The token is its session's current one, as long as the session exists, and no other request carries it. */
  ghost predicate Held(w: World, token: Token, h: Handler) {
    && token in w.issued
    && (w.issued[token] in w.db.sessions ==> w.db.sessions[w.issued[token]].refreshDigest == Sha256(token))
    && forall k :: k in w.handlers && k != h ==> !Carries(w.handlers[k], token)
  }

  /** Tokens no one has seen. */
  ghost predicate Unseen(w: World, unseen: set<Token>) {
    forall t :: t in unseen ==> t !in w.issued && forall k :: k in w.handlers ==> !Carries(w.handlers[k], t)
  }

  /** Request `h`, if it is in flight, carries `token` and has not been taken for a replay. */
  ghost predicate Asking(w: World, h: Handler, token: Token) {
    h in w.handlers ==> Carries(w.handlers[h], token)
  }

  /** A held token is not a used one, so presenting it cannot look like a replay. */
  lemma HeldIsNotUsed(w: World, token: Token, h: Handler)
    requires Sound(w) && Held(w, token, h)
    ensures Sha256(token) !in w.db.used
  {
  }

  lemma OthersRotationKeepsHeld(w: World, k: Handler, minted: Token, now: int, h: Handler, token: Token)
    requires Sound(w) && Held(w, token, h) && k != h && minted != token
    ensures Held(Apply(w, Rotate(k, minted, now)), token, h)
    ensures Apply(w, Rotate(k, minted, now)).issued[token] == w.issued[token]
  {
    if k in w.handlers && w.handlers[k].Ready? {
      var Ready(t, sid) := w.handlers[k];
      assert Carries(w.handlers[k], t);
      if Sha256(t) !in w.db.used && sid in w.db.sessions {
        WritersHoldTheTip(w, k);
      }
    }
  }

  lemma NobodyElseCarriesIt(w: World, step: Step, h: Handler, token: Token, mine: set<Token>)
    requires Held(w, token, h) && token in mine && Benign(step, h, token, mine)
    ensures forall k :: k in Apply(w, step).handlers && k != h ==> !Carries(Apply(w, step).handlers[k], token)
  {
  }

  lemma NobodyElseRotatesIt(w: World, step: Step, h: Handler, token: Token, mine: set<Token>)
    requires Sound(w) && Held(w, token, h) && token in mine && Benign(step, h, token, mine) && !step.Rotate?
    ensures var sid, w' := w.issued[token], Apply(w, step);
      && token in w'.issued && w'.issued[token] == sid
      && (sid in w'.db.sessions ==> w'.db.sessions[sid].refreshDigest == Sha256(token))
  {
  }

  /** No request but `h` can replace the token, because none but `h` carries it. */
  lemma BenignStepKeepsHeld(w: World, step: Step, h: Handler, token: Token, mine: set<Token>)
    requires Sound(w) && Held(w, token, h) && token in mine && Benign(step, h, token, mine)
    ensures Held(Apply(w, step), token, h)
    ensures Apply(w, step).issued[token] == w.issued[token]
  {
    if step.Rotate? {
      OthersRotationKeepsHeld(w, step.h, step.minted, step.now, h, token);
    } else {
      NobodyElseCarriesIt(w, step, h, token, mine);
      NobodyElseRotatesIt(w, step, h, token, mine);
    }
  }

  lemma BenignStepKeepsAsking(w: World, step: Step, h: Handler, token: Token, mine: set<Token>)
    requires Sha256(token) !in w.db.used && Benign(step, h, token, mine) && Asking(w, h, token)
    ensures Asking(Apply(w, step), h, token)
  {
  }

  lemma BenignStepKeepsUnseen(w: World, step: Step, h: Handler, token: Token, unseen: set<Token>)
    requires Unseen(w, unseen) && token !in unseen && Benign(step, h, token, {token} + unseen)
    ensures Unseen(Apply(w, step), unseen)
  {
  }

  lemma {:induction false} BenignRun(w: World, steps: seq<Step>, h: Handler, token: Token, unseen: set<Token>)
    requires Sound(w) && Held(w, token, h) && Asking(w, h, token)
    requires Unseen(w, unseen) && token !in unseen && AllBenign(steps, h, token, {token} + unseen)
    ensures var w' := Run(w, steps);
      && Sound(w') && Held(w', token, h) && Asking(w', h, token) && Unseen(w', unseen)
      && w'.issued[token] == w.issued[token]
  {
    if steps != [] {
      var front, last := steps[..|steps| - 1], steps[|steps| - 1];
      BenignRun(w, front, h, token, unseen);
      StepKeepsSound(Run(w, front), last);
      HeldIsNotUsed(Run(w, front), token, h);
      BenignStepKeepsHeld(Run(w, front), last, h, token, {token} + unseen);
      BenignStepKeepsAsking(Run(w, front), last, h, token, {token} + unseen);
      BenignStepKeepsUnseen(Run(w, front), last, h, token, unseen);
    }
  }

  lemma ForeignStepKeepsUnseen(w: World, step: Step, h: Handler, unseen: set<Token>)
    requires Unseen(w, unseen) && Foreign(step, h, unseen)
    ensures Unseen(Apply(w, step), unseen)
  {
  }

  lemma {:induction false} ForeignRun(w: World, steps: seq<Step>, h: Handler, unseen: set<Token>)
    requires Unseen(w, unseen) && AllForeign(steps, h, unseen)
    ensures Unseen(Run(w, steps), unseen)
  {
    if steps != [] {
      ForeignRun(w, steps[..|steps| - 1], h, unseen);
      ForeignStepKeepsUnseen(Run(w, steps[..|steps| - 1]), steps[|steps| - 1], h, unseen);
    }
  }

  lemma {:induction false} ForeignRunSkipsRequest(w: World, steps: seq<Step>, h: Handler, mine: set<Token>)
    requires AllForeign(steps, h, mine) && h !in w.handlers
    ensures h !in Run(w, steps).handlers
  {
    if steps != [] {
      ForeignRunSkipsRequest(w, steps[..|steps| - 1], h, mine);
    }
  }

  /** 1 when request `h` has been taken for a replay. */
  function Replays(w: World, h: Handler): nat {
    if h in w.handlers && (w.handlers[h].Replaying? || w.handlers[h].Stamping?) then 1 else 0
  }

  /** The end of request `h`: its write if it got that far and the write is let in, or nothing. */
  function Concluded(w: World, h: Handler, minted: Token, now: int): (World, Option<SessionId>) {
    if h in w.handlers && w.handlers[h].Ready? && w.handlers[h].sid in w.db.sessions
    then (Apply(w, Rotate(h, minted, now)), Some(w.handlers[h].sid))
    else (w.(handlers := w.handlers - {h}), None)
  }

  /** A rotation takes the held token away and hands the freshly minted one over in its place. */
  lemma RotationHandsOver(w: World, h: Handler, token: Token, minted: Token, now: int, unseen: set<Token>)
    requires Sound(w) && Held(w, token, h) && Asking(w, h, token)
    requires Unseen(w, unseen) && minted in unseen
    requires Concluded(w, h, minted, now).1.Some?
    ensures var w' := Concluded(w, h, minted, now).0;
      && Sound(w') && h !in w'.handlers
      && Held(w', minted, h) && Concluded(w, h, minted, now).1 == Some(w'.issued[minted])
      && w'.issued[minted] in w'.db.sessions
      && Unseen(w', unseen - {minted})
  {
    HeldIsNotUsed(w, token, h);
    StepKeepsSound(w, Rotate(h, minted, now));
  }

  lemma RefusalLeavesTheRest(w: World, h: Handler, minted: Token, now: int, unseen: set<Token>)
    requires Sound(w) && Unseen(w, unseen) && Concluded(w, h, minted, now).1.None?
    ensures var w' := Concluded(w, h, minted, now).0;
      Sound(w') && h !in w'.handlers && Unseen(w', unseen - {minted})
  {
    SameTokensSameSoundness(w, Concluded(w, h, minted, now).0);
  }

  /**
   * Why "no lost response" matters. Whatever others do after a refresh whose answer was lost, the client's next
   * silent refresh is taken for a replay exactly when that refresh had rotated and its session still exists.
   */
  lemma LostResponseIsAReplayIff(
    w: World, h: Handler, token: Token, minted: Token, now: int, steps: seq<Step>, k: Handler)
    requires Sound(w) && Held(w, token, h) && Asking(w, h, token)
    requires minted !in w.issued && Unseen(w, {minted})
    requires (k == h || k !in w.handlers) && AllForeign(steps, k, {token, minted})
    ensures var (answered, sid) := Concluded(w, h, minted, now);
      var later := Run(answered, steps);
      var asking := Apply(later, ProbeUsed(k, token));
      && k !in later.handlers && k in asking.handlers
      && (asking.handlers[k] == Replaying(w.issued[token]) <==> sid.Some? && sid.value in later.db.sessions)
      && (asking.handlers[k] == Probed(token) <==> !(sid.Some? && sid.value in later.db.sessions))
  {
    var answered, sid := Concluded(w, h, minted, now).0, Concluded(w, h, minted, now).1;
    ForeignRunSkipsRequest(answered, steps, k, {token, minted});
    HeldIsNotUsed(w, token, h);
    if sid.Some? {
      StepKeepsSound(w, Rotate(h, minted, now));
      Revocations.IssuedStays(w, Rotate(h, minted, now), token);
      assert w.issued[token] == sid.value;
      Revocations.SpentWhileItsSessionExists(answered, steps, token);
    } else {
      RefusalLeavesTheRest(w, h, minted, now, {minted});
      BenignRun(answered, steps, k, token, {minted});
      HeldIsNotUsed(Run(answered, steps), token, k);
    }
  }

  // ----- when a refresh succeeds -----

  lemma ForeignStepKeepsRequest(w: World, step: Step, h: Handler, mine: set<Token>)
    requires Foreign(step, h, mine) && h in w.handlers
    ensures h in Apply(w, step).handlers && Apply(w, step).handlers[h] == w.handlers[h]
  {
  }

  lemma {:induction false} ForeignRunKeepsRequest(w: World, steps: seq<Step>, h: Handler, mine: set<Token>)
    requires AllForeign(steps, h, mine) && h in w.handlers
    ensures h in Run(w, steps).handlers && Run(w, steps).handlers[h] == w.handlers[h]
  {
    if steps != [] {
      ForeignRunKeepsRequest(w, steps[..|steps| - 1], h, mine);
      ForeignStepKeepsRequest(Run(w, steps[..|steps| - 1]), steps[|steps| - 1], h, mine);
    }
  }

  /** The world as each of the request's reads finds it, and as its write does. */
  function AtFind(w: World, hop: RefreshHop, h: Handler, token: Token): World {
    Run(Apply(Run(w, hop.before), ProbeUsed(h, token)), hop.afterProbe)
  }

  function AtCheck(w: World, hop: RefreshHop, h: Handler, token: Token, sid: SessionId): World {
    Run(Apply(AtFind(w, hop, h, token), FindSession(h, sid, hop.now)), hop.afterFind)
  }

  function AtWrite(w: World, hop: RefreshHop, h: Handler, token: Token, sid: SessionId): World {
    Run(Apply(AtCheck(w, hop, h, token, sid), CheckAccount(h)), hop.afterCheck)
  }

  lemma ReadsInOrder(w: World, hop: RefreshHop, h: Handler, token: Token, sid: SessionId)
    ensures Run(w, ReadSteps(hop, h, token, sid)) == AtWrite(w, hop, h, token, sid)
  {
    var a, b, c := hop.before + [ProbeUsed(h, token)], [FindSession(h, sid, hop.now)], [CheckAccount(h)];
    RunAppend(w, a + hop.afterProbe + b + hop.afterFind + c, hop.afterCheck);
    RunAppend(w, a + hop.afterProbe + b + hop.afterFind, c);
    RunAppend(w, a + hop.afterProbe + b, hop.afterFind);
    RunAppend(w, a + hop.afterProbe, b);
    RunAppend(w, a, hop.afterProbe);
    RunAppend(w, hop.before, [ProbeUsed(h, token)]);
    RunOne(Run(w, hop.before), ProbeUsed(h, token));
    RunOne(AtFind(w, hop, h, token), FindSession(h, sid, hop.now));
    RunOne(AtCheck(w, hop, h, token, sid), CheckAccount(h));
  }

  lemma RunOne(w: World, step: Step)
    ensures Run(w, [step]) == Apply(w, step)
  {
    assert [step][..0] == [];
  }

  /** What the refresh request comes to: the world after it, and the session it rotated if it did. */
  function Refreshed(w: World, h: Handler, token: Token, hop: RefreshHop): (World, Option<SessionId>)
    requires token in w.issued
  {
    Concluded(Run(w, ReadSteps(hop, h, token, w.issued[token])), h, hop.minted, hop.now)
  }

  /** The client's session is live when looked up, its account active when checked, and neither is deleted before the write. */
  predicate StaysLive(w: World, h: Handler, token: Token, hop: RefreshHop) {
    token in w.issued &&
    var sid := w.issued[token];
    var find := AtFind(w, hop, h, token);
    && sid in find.db.sessions && IsActive(find.db.sessions[sid], hop.now)
    && AccountActive(AtCheck(w, hop, h, token, sid).db, find.db.sessions[sid].user)
    && sid in AtWrite(w, hop, h, token, sid).db.sessions
  }

  /** The request as far as its first read: it has been let through with the held token. */
  lemma RefreshGetsToFind(w: World, hop: RefreshHop, h: Handler, token: Token, unseen: set<Token>)
    requires Sound(w) && Held(w, token, h) && h !in w.handlers && Unseen(w, unseen) && token !in unseen
    requires AllForeign(hop.before, h, {token} + unseen) && AllForeign(hop.afterProbe, h, {token} + unseen)
    ensures var find := AtFind(w, hop, h, token);
      && Sound(find) && Held(find, token, h) && find.issued[token] == w.issued[token]
      && h in find.handlers && find.handlers[h] == Probed(token)
  {
    var before := Run(w, hop.before);
    BenignRun(w, hop.before, h, token, unseen);
    ForeignRunSkipsRequest(w, hop.before, h, {token} + unseen);
    HeldIsNotUsed(before, token, h);
    var probed := Apply(before, ProbeUsed(h, token));
    StepKeepsSound(before, ProbeUsed(h, token));
    BenignStepKeepsHeld(before, ProbeUsed(h, token), h, token, {token} + unseen);
    BenignStepKeepsUnseen(before, ProbeUsed(h, token), h, token, unseen);
    BenignRun(probed, hop.afterProbe, h, token, unseen);
    ForeignRunKeepsRequest(probed, hop.afterProbe, h, {token} + unseen);
  }

  /** The second read lets the request through exactly when it finds the session live. */
  lemma FindingGoesOn(w: World, after: seq<Step>, h: Handler, token: Token, sid: SessionId, now: int, mine: set<Token>)
    requires Held(w, token, h) && w.issued[token] == sid && h in w.handlers && w.handlers[h] == Probed(token)
    requires AllForeign(after, h, mine)
    ensures var w' := Run(Apply(w, FindSession(h, sid, now)), after);
      && (h in w'.handlers <==> sid in w.db.sessions && IsActive(w.db.sessions[sid], now))
      && (h in w'.handlers ==> w'.handlers[h] == Found(token, sid, w.db.sessions[sid].user))
  {
    var found := Apply(w, FindSession(h, sid, now));
    if h in found.handlers {
      ForeignRunKeepsRequest(found, after, h, mine);
    } else {
      ForeignRunSkipsRequest(found, after, h, mine);
    }
  }

  /** The third exactly when the account is active. */
  lemma CheckingGoesOn(w: World, after: seq<Step>, h: Handler, mine: set<Token>)
    requires AllForeign(after, h, mine) && (h in w.handlers ==> w.handlers[h].Found?)
    ensures var w' := Run(Apply(w, CheckAccount(h)), after);
      && (h in w'.handlers <==> h in w.handlers && AccountActive(w.db, w.handlers[h].user))
      && (h in w'.handlers ==> w'.handlers[h] == Ready(w.handlers[h].token, w.handlers[h].sid))
  {
    var checked := Apply(w, CheckAccount(h));
    if h in checked.handlers {
      ForeignRunKeepsRequest(checked, after, h, mine);
    } else {
      ForeignRunSkipsRequest(checked, after, h, mine);
    }
  }

  /** A silent refresh succeeds exactly when the session stays live through it. */
  lemma RefreshSucceedsIff(w: World, hop: RefreshHop, h: Handler, token: Token, unseen: set<Token>)
    requires Sound(w) && Held(w, token, h) && h !in w.handlers && Unseen(w, unseen) && token !in unseen
    requires AllForeign(hop.before, h, {token} + unseen) && AllForeign(hop.afterProbe, h, {token} + unseen)
    requires AllForeign(hop.afterFind, h, {token} + unseen) && AllForeign(hop.afterCheck, h, {token} + unseen)
    ensures Refreshed(w, h, token, hop).1.Some? <==> StaysLive(w, h, token, hop)
    ensures Refreshed(w, h, token, hop).1.Some? ==> Refreshed(w, h, token, hop).1 == Some(w.issued[token])
  {
    var sid := w.issued[token];
    ReadsInOrder(w, hop, h, token, sid);
    RefreshGetsToFind(w, hop, h, token, unseen);
    FindingGoesOn(AtFind(w, hop, h, token), hop.afterFind, h, token, sid, hop.now, {token} + unseen);
    CheckingGoesOn(AtCheck(w, hop, h, token, sid), hop.afterCheck, h, {token} + unseen);
  }

  /** The server can insert the session: its id is new and its account exists. */
  predicate CanOpen(w: World, user: UserId, sid: SessionId) {
    sid !in w.first && user in w.db.accounts
  }

  /** The refresh token a call of `send` leaves the client with, when it was not a call that signs it in. */
  function TokenAfter(w: World, h: Handler, held: Option<Token>, net: Script): Option<Token> {
    if net.hop.reply != Status(401) || held.None? then held
    else if StaysLive(Run(w, net.hop.steps), h, held.value, net.refresh) then Some(net.refresh.minted)
    else None
  }

  datatype LoginReply = SignedIn(user: UserId, sid: SessionId, minted: Token, now: int) | MfaRequired(challenge: Jwt)

  datatype LoginOutcome = LoggedIn | MfaOwed

  /** An access token of the refresh token's own session and, while that session exists, of its own account. */
  ghost predicate Pairs(w: World, access: Jwt, refresh: Token, secret: string) {
    && refresh in w.issued
    && access == Jwt(Access, access.sub, Some(w.issued[refresh]), access.exp, secret)
    && (w.issued[refresh] in w.db.sessions ==> access.sub == w.db.sessions[w.issued[refresh]].user)
  }

  lemma PairsStay(w: World, steps: seq<Step>, access: Jwt, refresh: Token, secret: string)
    requires Sound(w) && Pairs(w, access, refresh, secret)
    requires refresh in Run(w, steps).issued && Run(w, steps).issued[refresh] == w.issued[refresh]
    ensures Pairs(Run(w, steps), access, refresh, secret)
  {
    Revocations.RunKeepsColumns(w, steps, w.issued[refresh]);
  }

  /** What is issued for a rotation is good for the session's account, which is whose the old pair was, for fifteen minutes. */
  lemma RefreshedPairIsItsOwners(
    w: World, steps: seq<Step>, h: Handler, token: Token, access: Jwt, secret: string, minted: Token, now: int)
    requires Sound(w) && Pairs(w, access, token, secret)
    requires var mid := Run(w, steps); Sound(mid) && Held(mid, token, h) && Asking(mid, h, token)
    requires minted !in Run(w, steps).issued && Concluded(Run(w, steps), h, minted, now).1 == Some(w.issued[token])
    ensures var w', sid := Concluded(Run(w, steps), h, minted, now).0, w.issued[token];
      && sid in w'.db.sessions && w'.db.sessions[sid].user == access.sub
      && minted in w'.issued && w'.issued[minted] == sid
      && Pairs(w', IssueAccessToken(w'.db.sessions[sid].user, sid, secret, now), minted, secret)
      && GoodFor(IssueAccessToken(w'.db.sessions[sid].user, sid, secret, now), secret, access.sub, sid, now + 15 * 60)
  {
    var mid := Run(w, steps);
    HeldIsNotUsed(mid, token, h);
    Revocations.RunKeepsColumns(w, steps, w.issued[token]);
  }

  datatype ApiError = NothingPending | Failed(reply: Reply)

  class ApiClient {
    /** The id the client's own refresh requests have among all requests. */
    const h: Handler
    const secret: string
    var accessToken: Option<Jwt>
    var refreshToken: Option<Token>
    var pendingChallenge: Option<Jwt>
    /** The server, and how often it took this client for a thief. */
    var world: World
    var replays: nat

    /** The held refresh token is its session's current one, and the access token is for that session and its account. */
    ghost predicate InStep()
      reads this
    {
      && Sound(world) && h !in world.handlers && replays == 0
      && (accessToken.Some? <==> refreshToken.Some?)
      && (refreshToken.Some? ==>
        && Held(world, refreshToken.value, h)
        && Pairs(world, accessToken.value, refreshToken.value, secret))
    }

    /** The tokens nobody else may present or mint. */
    ghost function Mine(unseen: set<Token>): set<Token>
      reads this
    {
      if refreshToken.Some? then {refreshToken.value} + unseen else unseen
    }

    constructor (h: Handler, secret: string, world: World)
      requires Sound(world) && h !in world.handlers
      ensures InStep() && this.h == h && this.secret == secret && this.world == world
      ensures accessToken.None? && pendingChallenge.None?
    {
      this.h, this.secret, this.world := h, secret, world;
      accessToken, refreshToken, pendingChallenge, replays := None, None, None, 0;
    }

    method SetTokens(access: Jwt, refresh: Token)
      modifies this`accessToken, this`refreshToken
      ensures accessToken == Some(access) && refreshToken == Some(refresh)
    {
      accessToken := Some(access);
      refreshToken := Some(refresh);
    }

    method ClearTokens()
      modifies this`accessToken, this`refreshToken
      ensures accessToken == None && refreshToken == None
    {
      accessToken := None;
      refreshToken := None;
    }

    static lemma ForeignToFewer(steps: seq<Step>, h: Handler, mine: set<Token>, fewer: set<Token>)
      requires AllForeign(steps, h, mine) && fewer <= mine
      ensures AllForeign(steps, h, fewer)
    {
    }

    static lemma ScriptIsForeignToFewer(net: Script, h: Handler, mine: set<Token>, fewer: set<Token>)
      requires ScriptIsForeign(net, h, mine) && fewer <= mine
      ensures ScriptIsForeign(net, h, fewer)
    {
      ForeignToFewer(net.hop.steps, h, mine, fewer);
      ForeignToFewer(net.again.steps, h, mine, fewer);
      ForeignToFewer(net.refresh.before, h, mine, fewer);
      ForeignToFewer(net.refresh.afterProbe, h, mine, fewer);
      ForeignToFewer(net.refresh.afterFind, h, mine, fewer);
      ForeignToFewer(net.refresh.afterCheck, h, mine, fewer);
    }

    /** One request to an ordinary route. */
    method Fetch(hop: Hop, ghost unseen: set<Token>) returns (reply: Reply)
      requires InStep() && Unseen(world, unseen) && AllForeign(hop.steps, h, Mine(unseen))
      modifies this`world
      ensures InStep() && Unseen(world, unseen) && reply == hop.reply
      ensures world == Run(old(world), hop.steps)
    {
      ForeignRunSkipsRequest(world, hop.steps, h, Mine(unseen));
      if refreshToken.Some? {
        HeldIsNotFresh(world, refreshToken.value, h, unseen);
        BenignRun(world, hop.steps, h, refreshToken.value, unseen);
        PairsStay(world, hop.steps, accessToken.value, refreshToken.value, secret);
      } else {
        RunKeepsSound(world, hop.steps);
        ForeignRun(world, hop.steps, h, unseen);
      }
      world := Run(world, hop.steps);
      return hop.reply;
    }

    static lemma HeldIsNotFresh(w: World, token: Token, h: Handler, unseen: set<Token>)
      requires Held(w, token, h) && Unseen(w, unseen)
      ensures token !in unseen
    {
    }

    /** One request to the refresh route, among everybody else's: the new tokens, or None for a 401. */
    method FetchRefresh(hop: RefreshHop, ghost unseen: set<Token>) returns (r: Option<(Jwt, Token)>)
      requires InStep() && refreshToken.Some? && Unseen(world, unseen) && hop.minted in unseen
      requires AllBenign(ReadSteps(hop, h, refreshToken.value, world.issued[refreshToken.value]), h, refreshToken.value, Mine(unseen))
      modifies this`world, this`replays
      ensures Sound(world) && h !in world.handlers && replays == 0
      ensures Unseen(world, unseen - {hop.minted})
      ensures (world, if r.Some? then r.value.0.sid else None) == Refreshed(old(world), h, old(refreshToken).value, hop)
      ensures r.Some? ==>
        && r.value.1 == hop.minted && Held(world, hop.minted, h) && Pairs(world, r.value.0, hop.minted, secret)
        && GoodFor(
          r.value.0, secret, old(accessToken).value.sub, old(world).issued[old(refreshToken).value], hop.now + 15 * 60)
    {
      var token := refreshToken.value;
      var steps := ReadSteps(hop, h, token, world.issued[token]);
      HeldIsNotFresh(world, token, h, unseen);
      BenignRun(world, steps, h, token, unseen);
      world := Run(world, steps);
      replays := replays + Replays(world, h);
      var after, sid := Concluded(world, h, hop.minted, hop.now).0, Concluded(world, h, hop.minted, hop.now).1;
      if sid.None? {
        RefusalLeavesTheRest(world, h, hop.minted, hop.now, unseen);
        world := after;
        return None;
      }
      RotationHandsOver(world, h, token, hop.minted, hop.now, unseen);
      RefreshedPairIsItsOwners(old(world), steps, h, token, accessToken.value, secret, hop.minted, hop.now);
      world := after;
      return Some((IssueAccessToken(world.db.sessions[sid.value].user, sid.value, secret, hop.now), hop.minted));
    }

    /** The refresh inside `send`: the new pair is kept, and a refusal signs out. */
    method SilentRefresh(hop: RefreshHop, ghost unseen: set<Token>) returns (refreshed: bool)
      requires InStep() && refreshToken.Some? && Unseen(world, unseen) && hop.minted in unseen
      requires AllForeign(hop.before, h, Mine(unseen)) && AllForeign(hop.afterProbe, h, Mine(unseen))
      requires AllForeign(hop.afterFind, h, Mine(unseen)) && AllForeign(hop.afterCheck, h, Mine(unseen))
      modifies this`world, this`replays, this`accessToken, this`refreshToken
      ensures InStep() && Unseen(world, unseen - {hop.minted})
      ensures refreshToken == if refreshed then Some(hop.minted) else None
      ensures refreshed ==> GoodFor(
        accessToken.value, secret, old(accessToken).value.sub, old(world).issued[old(refreshToken).value], hop.now + 15 * 60)
      ensures refreshed <==> StaysLive(old(world), h, old(refreshToken).value, hop)
      ensures world == Refreshed(old(world), h, old(refreshToken).value, hop).0
    {
      HeldIsNotFresh(world, refreshToken.value, h, unseen);
      RefreshSucceedsIff(world, hop, h, refreshToken.value, unseen);
      ReadStepsAreBenign(hop, h, refreshToken.value, world.issued[refreshToken.value], Mine(unseen));
      var pair := FetchRefresh(hop, unseen);
      if pair.Some? {
        SetTokens(pair.value.0, pair.value.1);
      } else {
        ClearTokens();
      }
      return pair.Some?;
    }

    /**
     * `send`: on a 401, one silent refresh and one retry. At most three requests, never a token that was
     * already rotated, and the two tokens set or cleared together.
     */
    method Send(net: Script, retry: bool, ghost unseen: set<Token>) returns (reply: Reply, fetches: nat)
      requires InStep() && ScriptIsForeign(net, h, Mine(unseen))
      requires if retry then Unseen(world, unseen) && net.refresh.minted in unseen else Unseen(world, unseen - {net.refresh.minted})
      modifies this`world, this`replays, this`accessToken, this`refreshToken
      ensures InStep() && Unseen(world, unseen - {net.refresh.minted})
      ensures 1 <= fetches <= 3
      ensures fetches > 1 <==> retry && net.hop.reply == Status(401) && old(refreshToken).Some?
      ensures fetches > 1 ==>
        (fetches == 3 <==> StaysLive(Run(old(world), net.hop.steps), h, old(refreshToken).value, net.refresh))
      ensures retry ==> refreshToken == TokenAfter(old(world), h, old(refreshToken), net)
      ensures fetches == 1 ==>
        && refreshToken == old(refreshToken) && accessToken == old(accessToken)
        && reply == (if retry then net.hop else net.again).reply
        && world == Run(old(world), (if retry then net.hop else net.again).steps)
      ensures fetches == 2 ==> refreshToken.None? && reply == Status(401)
      ensures fetches == 3 ==> refreshToken == Some(net.refresh.minted) && reply == net.again.reply
      ensures fetches == 3 ==> GoodFor(
        accessToken.value, secret, old(accessToken).value.sub, old(world).issued[old(refreshToken).value],
        net.refresh.now + 15 * 60)
      decreases retry
    {
      var hop := if retry then net.hop else net.again;
      if !retry {
        ForeignToFewer(hop.steps, h, Mine(unseen), Mine(unseen - {net.refresh.minted}));
      }
      reply := Fetch(hop, if retry then unseen else unseen - {net.refresh.minted});
      fetches := 1;
      ghost var mine := Mine(unseen);
      if reply == Status(401) && retry && refreshToken.Some? {
        var refreshed := SilentRefresh(net.refresh, unseen);
        fetches := 2;
        if refreshed {
          ScriptIsForeignToFewer(net, h, mine, Mine(unseen));
          var more;
          reply, more := Send(net, false, unseen);
          return reply, fetches + more;
        }
      }
    }

    static lemma ReadStepsAreBenign(hop: RefreshHop, h: Handler, token: Token, sid: SessionId, mine: set<Token>)
      requires AllForeign(hop.before, h, mine) && AllForeign(hop.afterProbe, h, mine)
      requires AllForeign(hop.afterFind, h, mine) && AllForeign(hop.afterCheck, h, mine)
      ensures AllBenign(ReadSteps(hop, h, token, sid), h, token, mine)
    {
      forall step | step in ReadSteps(hop, h, token, sid) ensures Benign(step, h, token, mine) {
      }
    }

    /** `api.login`. A second factor owed leaves the tokens alone; a refused insert is an error like any other. */
    method Login(net: Script, body: LoginReply, ghost unseen: set<Token>) returns (r: Result<LoginOutcome, ApiError>)
      requires InStep() && ScriptIsForeign(net, h, Mine(unseen)) && Unseen(world, unseen) && net.refresh.minted in unseen
      requires body.SignedIn? ==> body.minted in unseen - {net.refresh.minted}
      modifies this
      ensures InStep()
      ensures Succeeded(net.hop.reply) && body.MfaRequired? ==> r == Ok(MfaOwed)
      ensures Succeeded(net.hop.reply) && body.SignedIn? && CanOpen(Run(old(world), net.hop.steps), body.user, body.sid) ==>
        r == Ok(LoggedIn)
      ensures r != Ok(LoggedIn) ==> refreshToken == TokenAfter(old(world), h, old(refreshToken), net)
      ensures r != Ok(LoggedIn) && net.hop.reply != Status(401) ==> accessToken == old(accessToken)
      ensures r == Ok(MfaOwed) ==> body.MfaRequired? && pendingChallenge == Some(body.challenge)
      ensures r == Ok(LoggedIn) ==>
        && body.SignedIn? && refreshToken == Some(body.minted)
        && GoodFor(accessToken.value, secret, body.user, body.sid, body.now + 15 * 60)
      ensures r != Ok(MfaOwed) ==> pendingChallenge == old(pendingChallenge)
    {
      var reply, _ := Send(net, true, unseen);
      if !Succeeded(reply) {
        return Err(Failed(reply));
      }
      match body
      case MfaRequired(challenge) =>
        pendingChallenge := Some(challenge);
        return Ok(MfaOwed);
      case SignedIn(user, sid, minted, now) =>
        r := AdoptSession(user, sid, minted, now, unseen - {net.refresh.minted});
    }

    /** The server opens the session and the client takes both of its tokens. */
    method AdoptSession(user: UserId, sid: SessionId, minted: Token, now: int, ghost unseen: set<Token>)
      returns (r: Result<LoginOutcome, ApiError>)
      requires InStep() && Unseen(world, unseen) && minted in unseen
      modifies this`world, this`accessToken, this`refreshToken
      ensures InStep()
      ensures r.Ok? <==> CanOpen(old(world), user, sid)
      ensures r.Ok? ==> r.value == LoggedIn && refreshToken == Some(minted)
      ensures r.Ok? ==> GoodFor(accessToken.value, secret, user, sid, now + 15 * 60)
      ensures r.Ok? ==> world == Apply(old(world), SessionRuns.Login(user, sid, minted, now))
      ensures r.Err? ==> world == old(world) && refreshToken == old(refreshToken) && accessToken == old(accessToken)
    {
      if !CanOpen(world, user, sid) {
        return Err(Failed(Status(500)));
      }
      StepKeepsSound(world, SessionRuns.Login(user, sid, minted, now));
      world := Apply(world, SessionRuns.Login(user, sid, minted, now));
      SetTokens(IssueAccessToken(user, sid, secret, now), minted);
      return Ok(LoggedIn);
    }

    /** `api.verifyMfa`. The challenge is dropped only when the exchange succeeds. */
    method VerifyMfa(net: Script, user: UserId, sid: SessionId, minted: Token, now: int, ghost unseen: set<Token>)
      returns (r: Result<LoginOutcome, ApiError>)
      requires InStep() && ScriptIsForeign(net, h, Mine(unseen)) && Unseen(world, unseen) && net.refresh.minted in unseen
      requires minted in unseen - {net.refresh.minted}
      modifies this
      ensures InStep()
      ensures old(pendingChallenge).None? ==> r == Err(NothingPending) && world == old(world)
      ensures old(pendingChallenge).Some? && Succeeded(net.hop.reply) && CanOpen(Run(old(world), net.hop.steps), user, sid) ==>
        r.Ok?
      ensures r.Ok? ==>
        && pendingChallenge.None? && refreshToken == Some(minted)
        && GoodFor(accessToken.value, secret, user, sid, now + 15 * 60)
      ensures r.Err? ==> pendingChallenge == old(pendingChallenge)
    {
      if pendingChallenge.None? {
        return Err(NothingPending);
      }
      var reply, _ := Send(net, true, unseen);
      if !Succeeded(reply) {
        return Err(Failed(reply));
      }
      r := AdoptSession(user, sid, minted, now, unseen - {net.refresh.minted});
      if r.Ok? {
        pendingChallenge := None;
      }
    }

    /** `api.logout`: whatever the server says, the tokens are gone. */
    method Logout(net: Script, ghost unseen: set<Token>)
      requires InStep() && ScriptIsForeign(net, h, Mine(unseen)) && Unseen(world, unseen) && net.refresh.minted in unseen
      modifies this
      ensures InStep() && refreshToken.None? && accessToken.None? && pendingChallenge == old(pendingChallenge)
    {
      var _, _ := Send(net, true, unseen);
      ClearTokens();
    }
  }

}
