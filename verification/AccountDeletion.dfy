/**
 * The application's schema, the rows its routes write, and what deleting an account does in every state they
 * can reach.
 */
module AccountDeletion {
  import opened Wrappers
  import opened Cascade

  // ----- the schema -----

  datatype Table =
    | UserAccount | AuthEvent
    | Case | UserSession | UserMfa | RecoveryCode | Passkey | PasskeyChallenge
    | Party | Document | UsedRefreshToken | CaseAuditEvent
    | DocumentPage | Passage | ExtractedFact | CaseEvent | CaseEventNote

  /** Foreign keys other than a table's first one. */
  datatype Column =
    | FactPassage | EventPassage | EventRecordedBy | NoteAuthor
    | EventAssertedBy | EventAbout | AuthEventUser | AuditActor | AuditCase

  function Rank(t: Table): nat {
    match t
    case UserAccount => 0
    case Party | Document | UsedRefreshToken | CaseAuditEvent => 2
    case DocumentPage => 3
    case Passage => 4
    case ExtractedFact | CaseEvent => 5
    case CaseEventNote => 6
    case _ => 1
  }

  /** ON DELETE CASCADE: the table whose rows carry this table's rows away with them. */
  function HomeTable(t: Table): Option<Table> {
    match t
    case UserAccount | AuthEvent | CaseAuditEvent => None
    case Case | UserSession | UserMfa | RecoveryCode | Passkey | PasskeyChallenge => Some(UserAccount)
    case Party | Document | CaseEvent => Some(Case)
    case UsedRefreshToken => Some(UserSession)
    case DocumentPage | ExtractedFact => Some(Document)
    case Passage => Some(DocumentPage)
    case CaseEventNote => Some(CaseEvent)
  }

  function Source(c: Column): Table {
    match c
    case FactPassage => ExtractedFact
    case EventPassage | EventRecordedBy | EventAssertedBy | EventAbout => CaseEvent
    case NoteAuthor => CaseEventNote
    case AuthEventUser => AuthEvent
    case AuditActor | AuditCase => CaseAuditEvent
  }

  function Target(c: Column): Table {
    match c
    case FactPassage | EventPassage => Passage
    case EventRecordedBy | NoteAuthor | AuthEventUser | AuditActor => UserAccount
    case EventAssertedBy | EventAbout => Party
    case AuditCase => Case
  }

  predicate SetsNull(c: Column) {
    c in {EventAssertedBy, EventAbout, AuthEventUser, AuditActor, AuditCase}
  }

  /** The NOT NULL and CHECK constraints: an entry cites a passage or names its author, never both. */
  predicate Complete(t: Table, housed: bool, columns: set<Column>) {
    && (HomeTable(t).Some? && t != PasskeyChallenge ==> housed)
    && (t == ExtractedFact ==> FactPassage in columns)
    && (t == CaseEvent ==> (EventPassage in columns <==> EventRecordedBy !in columns))
    && (t == CaseEventNote ==> NoteAuthor in columns)
  }

  const SCHEMA: Schema<Table, Column> :=
    Schema(UserAccount, t => Rank(t), t => HomeTable(t), c => Source(c), c => Target(c), c => SetsNull(c),
           (t, housed, columns) => Complete(t, housed, columns))

  type Rows = Database<Table, Column>

  // ----- the rows the routes write -----

  datatype Request =
    | Register
    | RecordSignIn(user: Option<Id>)
    | OpenCase(account: Id)
    | Upload(account: Id, theCase: Id)
    | AddPage(account: Id, theCase: Id, document: Id)
    | RecordEntry(account: Id, theCase: Id)
    | RecordNote(account: Id, theCase: Id, entry: Id)
    | RecordAccess(account: Id, what: Option<Id>)
    | StartSession(account: Id)
    | RotateToken(session: Id)
    | AddCredential(account: Id, kind: Table)
    | AskChallenge(user: Option<Id>)

  /** `owned_case`: the case is this account's. */
  predicate OwnsCase(db: Rows, account: Id, c: Id) {
    Is(db, account, UserAccount) && Is(db, c, Case) && db[c].home == Some(account)
  }

  /** `owned_event` and `owned_document`: the row sits in a case this account owns. */
  predicate InOwnCase(db: Rows, account: Id, c: Id, r: Id, t: Table) {
    OwnsCase(db, account, c) && Is(db, r, t) && db[r].home == Some(c)
  }

  predicate Allowed(db: Rows, req: Request) {
    match req
    case Register => true
    case RecordSignIn(user) => user.Some? ==> Is(db, user.value, UserAccount)
    case OpenCase(account) => Is(db, account, UserAccount)
    case Upload(account, c) => OwnsCase(db, account, c)
    case AddPage(account, c, document) => InOwnCase(db, account, c, document, Document)
    case RecordEntry(account, c) => OwnsCase(db, account, c)
    case RecordNote(account, c, entry) => InOwnCase(db, account, c, entry, CaseEvent)
    case RecordAccess(account, what) =>
      Is(db, account, UserAccount) && (what.Some? ==> OwnsCase(db, account, what.value))
    case StartSession(account) => Is(db, account, UserAccount)
    case RotateToken(session) => Is(db, session, UserSession)
    case AddCredential(account, kind) => Is(db, account, UserAccount) && kind in {UserMfa, RecoveryCode, Passkey}
    case AskChallenge(user) => user.Some? ==> Is(db, user.value, UserAccount)
  }

  function Written(req: Request): Row<Table, Column> {
    match req
    case Register => Row(UserAccount, None, map[], map[])
    case RecordSignIn(user) =>
      Row(AuthEvent, None, map[], if user.Some? then map[AuthEventUser := user.value] else map[])
    case OpenCase(account) => Row(Case, Some(account), map[], map[])
    case Upload(_, c) => Row(Document, Some(c), map[], map[])
    case AddPage(_, _, document) => Row(DocumentPage, Some(document), map[], map[])
    case RecordEntry(account, c) => Row(CaseEvent, Some(c), map[EventRecordedBy := account], map[])
    case RecordNote(account, _, entry) => Row(CaseEventNote, Some(entry), map[NoteAuthor := account], map[])
    case RecordAccess(account, what) =>
      Row(CaseAuditEvent, None, map[],
          if what.Some? then map[AuditActor := account, AuditCase := what.value] else map[AuditActor := account])
    case StartSession(account) => Row(UserSession, Some(account), map[], map[])
    case RotateToken(session) => Row(UsedRefreshToken, Some(session), map[], map[])
    case AddCredential(account, kind) => Row(kind, Some(account), map[], map[])
    case AskChallenge(user) => Row(PasskeyChallenge, user, map[], map[])
  }

  /** What disabling, consuming or replacing a credential deletes outside an account deletion. */
  predicate Droppable(t: Table) {
    t in {UserMfa, RecoveryCode, Passkey, PasskeyChallenge}
  }

  datatype Step =
    | Write(id: Id, request: Request)
    | Drop(id: Id)
    | DeleteAccount(owner: Id)

  /** A request that names what it may not touch is refused and changes nothing. */
  function Apply(db: Rows, step: Step): Rows {
    match step
    case Write(id, request) => if id !in db && Allowed(db, request) then db[id := Written(request)] else db
    case Drop(id) => if id in db && Droppable(db[id].table) then db - {id} else db
    case DeleteAccount(owner) => if Is(db, owner, UserAccount) then Remaining(db, OwnedBy(SCHEMA, db, owner)) else db
  }

  function Run(db: Rows, steps: seq<Step>): Rows
    decreases |steps|
  {
    if steps == [] then db else Run(Apply(db, steps[0]), steps[1..])
  }

  // ----- every reachable state is sound -----

  lemma SchemaIsLawful()
    ensures Lawful(SCHEMA)
  {
    forall t: Table ensures SCHEMA.home(t).Some? ==> SCHEMA.rank(SCHEMA.home(t).value) < SCHEMA.rank(t) {
      assert HomeTable(t).Some? ==> Rank(HomeTable(t).value) < Rank(t);
    }
    forall c: Column ensures SCHEMA.rank(SCHEMA.target(c)) < SCHEMA.rank(SCHEMA.source(c)) {
      assert Rank(Target(c)) < Rank(Source(c));
    }
  }

  lemma WrittenRowsAreHoused(db: Rows, req: Request)
    requires Allowed(db, req)
    ensures var row := Written(req);
      row.home.Some? ==> HomeTable(row.table).Some? && Is(db, row.home.value, HomeTable(row.table).value)
  {
    match req
    case AddCredential(account, kind) =>
      assert HomeTable(kind) == Some(UserAccount);
    case _ =>
  }

  lemma WrittenColumnsReferWell(db: Rows, req: Request, c: Column)
    requires Allowed(db, req)
    ensures var row := Written(req);
      && (c in row.cascade ==> Source(c) == row.table && !SetsNull(c) && Is(db, row.cascade[c], Target(c)))
      && (c in row.setNull ==> Source(c) == row.table && SetsNull(c) && Is(db, row.setNull[c], Target(c)))
  {
    match req
    case RecordSignIn(user) =>
    case RecordEntry(account, _) =>
    case RecordNote(account, _, _) =>
    case RecordAccess(account, what) =>
    case _ =>
      assert Written(req).cascade == map[] && Written(req).setNull == map[];
  }

  /** What a route writes meets every foreign key and every constraint. */
  lemma WrittenRowsReferWell(db: Rows, req: Request)
    requires Allowed(db, req)
    ensures RefersWell(SCHEMA, db, Written(req))
    ensures Complete(Written(req).table, Written(req).home.Some?, Written(req).cascade.Keys)
  {
    WrittenRowsAreHoused(db, req);
    forall c: Column {
      WrittenColumnsReferWell(db, req, c);
    }
    if req.RecordEntry? {
      assert Written(req).cascade.Keys == {EventRecordedBy};
    } else if req.RecordNote? {
      assert Written(req).cascade.Keys == {NoteAuthor};
    }
  }

  /** An entry or a note is written by its case's owner. */
  lemma AuthorsAreOwners(db: Rows, req: Request)
    requires Sound(SCHEMA, db) && Allowed(db, req) && (req.RecordEntry? || req.RecordNote?)
    ensures Owner(SCHEMA, db, Written(req).home.value) == Some(req.account)
    ensures Owner(SCHEMA, db, req.account) == Some(req.account)
  {
    OwnerOfHome(SCHEMA, db, req.theCase);
    if req.RecordNote? {
      OwnerOfHome(SCHEMA, db, req.entry);
    }
  }

  lemma StepKeepsSound(db: Rows, step: Step)
    requires Sound(SCHEMA, db)
    ensures Sound(SCHEMA, Apply(db, step))
  {
    match step
    case Write(id, request) =>
      if id !in db && Allowed(db, request) {
        WrittenRowsReferWell(db, request);
        if request.RecordEntry? || request.RecordNote? {
          AuthorsAreOwners(db, request);
        }
        InsertKeepsSound(SCHEMA, db, id, Written(request));
      }
    case Drop(id) =>
      if id in db && Droppable(db[id].table) {
        forall t: Table ensures SCHEMA.home(t) != Some(db[id].table) {
          assert HomeTable(t) != Some(db[id].table);
        }
        forall c: Column ensures SCHEMA.target(c) != db[id].table {
          assert Target(c) != db[id].table;
        }
        DropKeepsSound(SCHEMA, db, id);
      }
    case DeleteAccount(owner) =>
      if Is(db, owner, UserAccount) {
        DeleteKeepsSound(SCHEMA, db, owner);
      }
  }

  lemma {:induction false} RunKeepsSound(db: Rows, steps: seq<Step>)
    requires Sound(SCHEMA, db)
    ensures Sound(SCHEMA, Run(db, steps))
    decreases |steps|
  {
    if steps != [] {
      StepKeepsSound(db, steps[0]);
      RunKeepsSound(Apply(db, steps[0]), steps[1..]);
    }
  }

  lemma EveryReachableStateIsSound(steps: seq<Step>)
    ensures Sound(SCHEMA, Run(map[], steps))
  {
    SchemaIsLawful();
    RunKeepsSound(map[], steps);
  }

  /** The account a request writes for; the sign-in and access trails are nobody's. */
  function WritesFor(db: Rows, id: Id, req: Request): Option<Id> {
    match req
    case Register => Some(id)
    case RecordSignIn(_) => None
    case RecordAccess(_, _) => None
    case RotateToken(session) => if session in db then db[session].home else None
    case AskChallenge(user) => user
    case _ => Some(req.account)
  }

  /** What an account writes belongs to it, and so goes with it. */
  lemma WrittenRowsAreOwned(db: Rows, id: Id, req: Request)
    requires Sound(SCHEMA, db) && id !in db && Allowed(db, req)
    ensures Owner(SCHEMA, Apply(db, Write(id, req)), id) == WritesFor(db, id, req)
  {
    var db' := Apply(db, Write(id, req));
    StepKeepsSound(db, Write(id, req));
    if Written(req).home.Some? {
      OwnerOfHome(SCHEMA, db', id);
      OwnerStays(SCHEMA, db, db', Written(req).home.value);
      HomesAreOwned(db, req);
    }
  }

  lemma HomesAreOwned(db: Rows, req: Request)
    requires Sound(SCHEMA, db) && Allowed(db, req) && Written(req).home.Some?
    ensures Owner(SCHEMA, db, Written(req).home.value) == WritesFor(db, 0, req)
  {
    match req
    case Upload(account, c) => OwnerOfHome(SCHEMA, db, c);
    case AddPage(account, c, document) =>
      OwnerOfHome(SCHEMA, db, c);
      OwnerOfHome(SCHEMA, db, document);
    case RecordEntry(account, c) => AuthorsAreOwners(db, req);
    case RecordNote(account, c, entry) => AuthorsAreOwners(db, req);
    case RotateToken(session) =>
      assert RowIntact(SCHEMA, db, session);
      assert SCHEMA.complete(UserSession, db[session].home.Some?, db[session].cascade.Keys);
      OwnerOfHome(SCHEMA, db, session);
    case _ =>
  }

  /** Deleting an account, whatever came before. */
  lemma DeletionAfterAnyRun(steps: seq<Step>, owner: Id, r: Id)
    requires Is(Run(map[], steps), owner, UserAccount) && r in Run(map[], steps)
    ensures var before, after := Run(map[], steps), Apply(Run(map[], steps), DeleteAccount(owner));
      && Intact(SCHEMA, after)
      && (r in after <==> Owner(SCHEMA, before, r) != Some(owner))
      && (Owner(SCHEMA, before, r).Some? && r in after ==> after[r] == before[r])
      && (before[r].table in {AuthEvent, CaseAuditEvent} ==>
        && r in after && after[r].table == before[r].table
        && (forall c :: c in after[r].setNull <==> c in before[r].setNull && before[r].setNull[c] in after)
        && forall c :: c in after[r].setNull ==> after[r].setNull[c] == before[r].setNull[c] != owner)
  {
    var before := Run(map[], steps);
    EveryReachableStateIsSound(steps);
    NothingDangles(SCHEMA, before, owner);
    OthersAreUntouched(SCHEMA, before, owner, r);
    if before[r].table in {AuthEvent, CaseAuditEvent} {
      assert RowIntact(SCHEMA, before, r);
      TrailSurvives(SCHEMA, before, owner, r);
    }
  }

}
