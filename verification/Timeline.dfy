/**
 * A case's timeline: entries are only ever added, corrections sit beside them as notes, and reading merges
 * what filings say with what the account holder recorded into one chronology.
 */
module Timeline {
  import opened Wrappers
  import opened Sorting

  type Id = nat

  datatype Kind = Procedural | Alleged
  datatype Provenance = DocumentDerived | UserAsserted
  datatype Precision = Exact | Day | Month | Year

  datatype Page = Page(document: Id, number: nat)
  datatype Passage = Passage(page: Id, quote: string)

  datatype Entry = Entry(
    id: Id, inCase: Id, kind: Kind, provenance: Provenance, passage: Option<Id>, recordedBy: Option<Id>,
    occurredAt: int, precision: Precision, summary: string, createdAt: int)

  datatype Note = Note(id: Id, entry: Id, author: Id, body: string, createdAt: int)

  /** Table contents; the sequences are in whatever order the rows happen to be stored. */
  datatype Tables = Tables(
    owners: map<Id, Id>, titles: map<Id, string>, pages: map<Id, Page>, passages: map<Id, Passage>,
    entries: seq<Entry>, notes: seq<Note>)

  /** The body of a request to record an entry. */
  datatype Draft = Draft(kind: Kind, occurredAt: int, precision: Precision, summary: string)

  datatype Citation = Citation(document: Id, title: string, page: nat, quote: string)
  datatype ShownNote = ShownNote(id: Id, body: string, createdAt: int)
  datatype Shown = Shown(
    id: Id, kind: Kind, provenance: Provenance, occurredAt: int, precision: Precision, summary: string,
    citation: Option<Citation>, notes: seq<ShownNote>)

  datatype Refusal = CaseNotFound | EntryNotFound

  // ----- reading -----

  /** ORDER BY occurred_at, created_at. */
  predicate Earlier(a: Entry, b: Entry) {
    a.occurredAt < b.occurredAt || (a.occurredAt == b.occurredAt && a.createdAt <= b.createdAt)
  }

  predicate Older(a: Note, b: Note) {
    a.createdAt <= b.createdAt
  }

  const EARLIER: (Entry, Entry) -> bool := (a, b) => Earlier(a, b)
  const OLDER: (Note, Note) -> bool := (a, b) => Older(a, b)

  function InCase(entries: seq<Entry>, c: Id): seq<Entry> {
    if entries == [] then []
    else if entries[0].inCase == c then [entries[0]] + InCase(entries[1..], c)
    else InCase(entries[1..], c)
  }

  function Beside(notes: seq<Note>, entry: Id): seq<Note> {
    if notes == [] then []
    else if notes[0].entry == entry then [notes[0]] + Beside(notes[1..], entry)
    else Beside(notes[1..], entry)
  }

  function ShownNotes(notes: seq<Note>): (r: seq<ShownNote>)
    ensures |r| == |notes|
  {
    seq(|notes|, i requires 0 <= i < |notes| => ShownNote(notes[i].id, notes[i].body, notes[i].createdAt))
  }

  /** The document is reached through the passage and its page. */
  function Cite(t: Tables, passage: Option<Id>): Option<Citation> {
    if passage.None? || passage.value !in t.passages then None
    else
      var p := t.passages[passage.value];
      if p.page !in t.pages || t.pages[p.page].document !in t.titles then None
      else
        var page := t.pages[p.page];
        Some(Citation(page.document, t.titles[page.document], page.number, p.quote))
  }

  function Show(t: Tables, e: Entry): Shown {
    Shown(e.id, e.kind, e.provenance, e.occurredAt, e.precision, e.summary, Cite(t, e.passage),
          ShownNotes(Sort(Beside(t.notes, e.id), OLDER)))
  }

  function ShowAll(t: Tables, entries: seq<Entry>): seq<Shown> {
    if entries == [] then [] else [Show(t, entries[0])] + ShowAll(t, entries[1..])
  }

  function Listing(t: Tables, c: Id): seq<Shown> {
    ShowAll(t, Sort(InCase(t.entries, c), EARLIER))
  }

  // ----- writing -----

  predicate Owns(t: Tables, account: Id, c: Id) {
    c in t.owners && t.owners[c] == account
  }

  /** `owned_event`: an entry id from another case is not a capability. */
  predicate HasEntry(t: Tables, c: Id, id: Id) {
    exists e :: e in t.entries && e.id == id && e.inCase == c
  }

  function Drafted(account: Id, c: Id, id: Id, d: Draft, at: int): Entry {
    Entry(id, c, d.kind, UserAsserted, None, Some(account), d.occurredAt, d.precision, d.summary, at)
  }

  function AfterEntry(t: Tables, account: Id, c: Id, id: Id, d: Draft, at: int): Tables {
    if Owns(t, account, c) then t.(entries := t.entries + [Drafted(account, c, id, d, at)]) else t
  }

  function AfterNote(t: Tables, account: Id, c: Id, entry: Id, id: Id, body: string, at: int): Tables {
    if Owns(t, account, c) && HasEntry(t, c, entry) then t.(notes := t.notes + [Note(id, entry, account, body, at)]) else t
  }

  datatype Action = EventList(entries: nat) | EventCreated | EventNoteCreated

  class TimelineApi {
    var tables: Tables
    var audit: seq<(Id, Id, Action)>

    constructor (t: Tables)
      ensures tables == t && audit == []
    {
      tables, audit := t, [];
    }

    method ListEvents(account: Id, c: Id) returns (r: Result<seq<Shown>, Refusal>)
      modifies this`audit
      ensures r == if Owns(tables, account, c) then Ok(Listing(tables, c)) else Err(CaseNotFound)
      ensures audit == if r.Ok? then old(audit) + [(account, c, EventList(|r.value|))] else old(audit)
    {
      if !Owns(tables, account, c) {
        return Err(CaseNotFound);
      }
      var entries := Sort(InCase(tables.entries, c), EARLIER);
      audit := audit + [(account, c, EventList(|entries|))];
      var shown: seq<Shown> := [];
      var i := 0;
      while i < |entries|
        invariant 0 <= i <= |entries|
        invariant shown + ShowAll(tables, entries[i..]) == Listing(tables, c)
        invariant |shown| == i
      {
        shown := shown + [Show(tables, entries[i])];
        i := i + 1;
      }
      assert shown == shown + ShowAll(tables, entries[i..]);
      return Ok(shown);
    }

    /** What comes back is what every listing will show for the entry until a note is put beside it. */
    method CreateEvent(account: Id, c: Id, id: Id, d: Draft, now: int) returns (r: Result<Shown, Refusal>)
      requires Fresh(tables, id, now) && Sound(tables)
      modifies this
      ensures r.Ok? <==> Owns(old(tables), account, c)
      ensures tables == AfterEntry(old(tables), account, c, id, d, now)
      ensures r.Ok? ==> r.value == Show(tables, Drafted(account, c, id, d, now))
      ensures r.Err? ==> r.error == CaseNotFound && audit == old(audit)
      ensures r.Ok? ==> audit == old(audit) + [(account, c, EventCreated)]
    {
      if !Owns(tables, account, c) {
        return Err(CaseNotFound);
      }
      var e := Drafted(account, c, id, d, now);
      NothingBesideTheNew(tables, id, now);
      tables := tables.(entries := tables.entries + [e]);
      audit := audit + [(account, c, EventCreated)];
      return Ok(Shown(e.id, e.kind, e.provenance, e.occurredAt, e.precision, e.summary, None, []));
    }

    method CreateNote(account: Id, c: Id, entry: Id, id: Id, body: string, now: int) returns (r: Result<ShownNote, Refusal>)
      modifies this
      ensures tables == AfterNote(old(tables), account, c, entry, id, body, now)
      ensures r == if !Owns(old(tables), account, c) then Err(CaseNotFound)
                   else if !HasEntry(old(tables), c, entry) then Err(EntryNotFound)
                   else Ok(ShownNote(id, body, now))
      ensures audit == if r.Ok? then old(audit) + [(account, c, EventNoteCreated)] else old(audit)
    {
      if !Owns(tables, account, c) {
        return Err(CaseNotFound);
      }
      if !HasEntry(tables, c, entry) {
        return Err(EntryNotFound);
      }
      tables := tables.(notes := tables.notes + [Note(id, entry, account, body, now)]);
      audit := audit + [(account, c, EventNoteCreated)];
      return Ok(ShownNote(id, body, now));
    }
  }

  // ----- runs -----

  datatype Step =
    | CreateEvent(account: Id, c: Id, id: Id, draft: Draft, at: int)
    | CreateNote(account: Id, c: Id, entry: Id, id: Id, body: string, at: int)
    | Extract(derived: Entry)
    | AddDocument(id: Id, title: string)
    | AddPage(id: Id, page: Page)
    | AddPassage(id: Id, passage: Passage)
    | Rearrange(entries: seq<Entry>, notes: seq<Note>)

  /** The CHECK constraints: documentary entries cite and are nobody's, asserted ones name their author and cite nothing. */
  predicate MeetsChecks(e: Entry) {
    && (e.provenance == DocumentDerived <==> e.passage.Some?)
    && (e.provenance == UserAsserted <==> e.recordedBy.Some?)
  }

  predicate Cited(t: Tables, p: Id) {
    p in t.passages && t.passages[p].page in t.pages && t.pages[t.passages[p].page].document in t.titles
  }

  ghost function Apply(t: Tables, step: Step): Tables {
    match step
    case CreateEvent(account, c, id, d, at) => AfterEntry(t, account, c, id, d, at)
    case CreateNote(account, c, entry, id, body, at) => AfterNote(t, account, c, entry, id, body, at)
    case Extract(e) =>
      if e.inCase in t.owners && MeetsChecks(e) && e.passage.Some? && Cited(t, e.passage.value)
      then t.(entries := t.entries + [e]) else t
    case AddDocument(id, title) => if id in t.titles then t else t.(titles := t.titles[id := title])
    case AddPage(id, page) =>
      if id in t.pages || page.document !in t.titles then t else t.(pages := t.pages[id := page])
    case AddPassage(id, passage) =>
      if id in t.passages || passage.page !in t.pages then t else t.(passages := t.passages[id := passage])
    case Rearrange(entries, notes) =>
      if multiset(entries) == multiset(t.entries) && multiset(notes) == multiset(t.notes)
      then t.(entries := entries, notes := notes) else t
  }

  /** Ids are new and creation times strictly increase. */
  ghost predicate Fresh(t: Tables, id: Id, at: int) {
    && (forall e :: e in t.entries ==> e.id != id && e.createdAt < at)
    && forall n :: n in t.notes ==> n.id != id && n.createdAt < at
  }

  ghost predicate Timely(t: Tables, step: Step) {
    match step
    case CreateEvent(_, _, id, _, at) => Fresh(t, id, at)
    case CreateNote(_, _, _, id, _, at) => Fresh(t, id, at)
    case Extract(e) => Fresh(t, e.id, e.createdAt)
    case _ => true
  }

  ghost function Run(t: Tables, steps: seq<Step>): Tables
    decreases |steps|
  {
    if steps == [] then t else Run(Apply(t, steps[0]), steps[1..])
  }

  ghost predicate AllTimely(t: Tables, steps: seq<Step>)
    decreases |steps|
  {
    steps == [] || (Timely(t, steps[0]) && AllTimely(Apply(t, steps[0]), steps[1..]))
  }

  // ----- what every run keeps -----

  ghost predicate EntryFits(t: Tables, e: Entry) {
    MeetsChecks(e) && (e.passage.Some? ==> Cited(t, e.passage.value))
  }

  ghost predicate Sound(t: Tables) {
    && (forall e :: e in t.entries ==> EntryFits(t, e))
    && (forall n :: n in t.notes ==> exists e :: e in t.entries && e.id == n.entry)
    && (forall x, y :: TwoOf(t.entries, x, y) ==> x.createdAt != y.createdAt)
    && (forall x, y :: TwoOf(t.notes, x, y) ==> x.createdAt != y.createdAt)
  }

  /** Nothing present was changed or removed, and new notes are newer than every note that was there. */
  ghost predicate Grew(t: Tables, t': Tables) {
    && (forall e :: e in t.entries ==> e in t'.entries)
    && (forall n :: n in t.notes ==> n in t'.notes)
    && (forall n, n' :: n in t.notes && n' in t'.notes && n' !in t.notes ==> n.createdAt < n'.createdAt)
    && (forall p :: p in t.passages ==> p in t'.passages && t'.passages[p] == t.passages[p])
    && (forall p :: p in t.pages ==> p in t'.pages && t'.pages[p] == t.pages[p])
    && (forall d :: d in t.titles ==> d in t'.titles && t'.titles[d] == t.titles[d])
  }

  lemma SameRows<T>(xs: seq<T>, ys: seq<T>)
    requires multiset(xs) == multiset(ys)
    ensures forall x :: x in xs <==> x in ys
    ensures forall x, y :: TwoOf(xs, x, y) <==> TwoOf(ys, x, y)
  {
    forall x ensures x in xs <==> x in ys {
      assert x in multiset(xs) <==> x in multiset(ys);
    }
  }

  lemma OneMoreRow<T>(xs: seq<T>, x: T, a: T, b: T)
    requires TwoOf(xs + [x], a, b)
    ensures TwoOf(xs, a, b) || (a == x && b in xs) || (b == x && a in xs)
  {
    assert multiset(xs + [x]) == multiset(xs) + multiset{x};
    var pair := multiset{a, b};
    if a == x {
      assert pair[b] <= multiset(xs + [x])[b];
      assert b in multiset(xs);
    } else if b == x {
      assert pair[a] <= multiset(xs + [x])[a];
      assert a in multiset(xs);
    } else {
      forall c | c in pair ensures pair[c] <= multiset(xs)[c] {
        assert pair[c] <= multiset(xs + [x])[c];
      }
    }
  }

  lemma StepGrows(t: Tables, step: Step)
    requires Sound(t) && Timely(t, step)
    ensures Grew(t, Apply(t, step))
  {
    if step.Rearrange? && multiset(step.entries) == multiset(t.entries) && multiset(step.notes) == multiset(t.notes) {
      SameRows(step.entries, t.entries);
      SameRows(step.notes, t.notes);
    }
  }

  lemma AddingAnEntryKeepsSound(t: Tables, e: Entry)
    requires Sound(t) && EntryFits(t, e) && Fresh(t, e.id, e.createdAt)
    ensures Sound(t.(entries := t.entries + [e]))
  {
    var t' := t.(entries := t.entries + [e]);
    forall x | x in t'.entries ensures EntryFits(t', x) {
      assert EntryFits(t, x);
    }
    forall n | n in t'.notes ensures exists x :: x in t'.entries && x.id == n.entry {
      var x :| x in t.entries && x.id == n.entry;
      assert x in t'.entries;
    }
    forall x, y | TwoOf(t'.entries, x, y) ensures x.createdAt != y.createdAt {
      OneMoreRow(t.entries, e, x, y);
    }
  }

  lemma AddingANoteKeepsSound(t: Tables, n: Note)
    requires Sound(t) && Fresh(t, n.id, n.createdAt) && exists e :: e in t.entries && e.id == n.entry
    ensures Sound(t.(notes := t.notes + [n]))
  {
    var t' := t.(notes := t.notes + [n]);
    forall e | e in t'.entries ensures EntryFits(t', e) {
      assert EntryFits(t, e);
    }
    forall x, y | TwoOf(t'.notes, x, y) ensures x.createdAt != y.createdAt {
      OneMoreRow(t.notes, n, x, y);
    }
  }

  lemma StepKeepsSound(t: Tables, step: Step)
    requires Sound(t) && Timely(t, step)
    ensures Sound(Apply(t, step))
  {
    match step
    case CreateEvent(account, c, id, d, at) =>
      AddingAnEntryKeepsSound(t, Drafted(account, c, id, d, at));
    case CreateNote(account, c, entry, id, body, at) =>
      if Owns(t, account, c) && HasEntry(t, c, entry) {
        AddingANoteKeepsSound(t, Note(id, entry, account, body, at));
      }
    case Extract(e) =>
      if EntryFits(t, e) {
        AddingAnEntryKeepsSound(t, e);
      }
    case Rearrange(entries, notes) =>
      if multiset(entries) == multiset(t.entries) && multiset(notes) == multiset(t.notes) {
        SameRows(entries, t.entries);
        SameRows(notes, t.notes);
        forall e | e in entries ensures EntryFits(Apply(t, step), e) {
          assert EntryFits(t, e);
        }
      }
    case _ =>
      forall e | e in t.entries ensures EntryFits(Apply(t, step), e) {
        assert EntryFits(t, e);
      }
  }

  lemma {:induction false} RunGrows(t: Tables, steps: seq<Step>)
    requires Sound(t) && AllTimely(t, steps)
    ensures Sound(Run(t, steps)) && Grew(t, Run(t, steps))
    decreases |steps|
  {
    if steps != [] {
      var t' := Apply(t, steps[0]);
      StepKeepsSound(t, steps[0]);
      StepGrows(t, steps[0]);
      RunGrows(t', steps[1..]);
    }
  }

  // ----- what a reader sees of it -----

  lemma InCaseSelects(entries: seq<Entry>, c: Id, e: Entry)
    ensures e in InCase(entries, c) <==> e in entries && e.inCase == c
  {
    if entries != [] {
      InCaseSelects(entries[1..], c, e);
    }
  }

  lemma BesideSelects(notes: seq<Note>, entry: Id, n: Note)
    ensures n in Beside(notes, entry) <==> n in notes && n.entry == entry
  {
    if notes != [] {
      BesideSelects(notes[1..], entry, n);
    }
  }

  lemma {:induction false} InCaseIsPart(entries: seq<Entry>, c: Id)
    ensures multiset(InCase(entries, c)) <= multiset(entries)
  {
    if entries != [] {
      InCaseIsPart(entries[1..], c);
      assert entries == [entries[0]] + entries[1..];
    }
  }

  lemma {:induction false} BesideIsPart(notes: seq<Note>, entry: Id)
    ensures multiset(Beside(notes, entry)) <= multiset(notes)
  {
    if notes != [] {
      BesideIsPart(notes[1..], entry);
      assert notes == [notes[0]] + notes[1..];
    }
  }

  /** The entries of a case in reading order. */
  lemma Chronology(t: Tables, c: Id)
    requires Sound(t)
    ensures Strict(Sort(InCase(t.entries, c), EARLIER), EARLIER)
    ensures forall e :: e in Sort(InCase(t.entries, c), EARLIER) <==> e in t.entries && e.inCase == c
  {
    var mine := InCase(t.entries, c);
    InCaseIsPart(t.entries, c);
    forall x, y | TwoOf(mine, x, y) ensures !(EARLIER(x, y) && EARLIER(y, x)) {
      assert TwoOf(t.entries, x, y);
    }
    SortIsStrict(mine, EARLIER);
    forall e ensures e in Sort(mine, EARLIER) <==> e in t.entries && e.inCase == c {
      SortKeeps(mine, EARLIER, e);
      InCaseSelects(t.entries, c, e);
    }
  }

  lemma NotesInOrder(t: Tables, entry: Id)
    requires Sound(t)
    ensures Strict(Sort(Beside(t.notes, entry), OLDER), OLDER)
    ensures forall n :: n in Sort(Beside(t.notes, entry), OLDER) <==> n in t.notes && n.entry == entry
  {
    var mine := Beside(t.notes, entry);
    BesideIsPart(t.notes, entry);
    forall x, y | TwoOf(mine, x, y) ensures !(OLDER(x, y) && OLDER(y, x)) {
      assert TwoOf(t.notes, x, y);
    }
    SortIsStrict(mine, OLDER);
    forall n ensures n in Sort(mine, OLDER) <==> n in t.notes && n.entry == entry {
      SortKeeps(mine, OLDER, n);
      BesideSelects(t.notes, entry, n);
    }
  }

  lemma NothingBesideTheNew(t: Tables, id: Id, at: int)
    requires Sound(t) && Fresh(t, id, at)
    ensures Beside(t.notes, id) == []
  {
    if Beside(t.notes, id) != [] {
      var n := Beside(t.notes, id)[0];
      BesideSelects(t.notes, id, n);
    }
  }

  /** The same entry, word for word, with its notes first to last and possibly more after them. */
  predicate Carries(later: Shown, before: Shown) {
    later.(notes := before.notes) == before && before.notes <= later.notes
  }

  /** `before` is a subsequence of `later`, entry by entry. */
  predicate Embeds(before: seq<Shown>, later: seq<Shown>) {
    before == [] ||
    (later != [] && ((Carries(later[0], before[0]) && Embeds(before[1..], later[1..])) || Embeds(before, later[1..])))
  }

  /** An entry is shown later as it was shown before. */
  lemma EntryIsCarried(t: Tables, t': Tables, e: Entry)
    requires Sound(t) && Sound(t') && Grew(t, t') && e in t.entries
    ensures Carries(Show(t', e), Show(t, e))
  {
    assert EntryFits(t, e);
    var notes, notes' := Sort(Beside(t.notes, e.id), OLDER), Sort(Beside(t'.notes, e.id), OLDER);
    NotesInOrder(t, e.id);
    NotesInOrder(t', e.id);
    StrictGrowsAtTheEnd(notes, notes', OLDER);
    assert ShownNotes(notes) == ShownNotes(notes')[..|notes|];
  }

  lemma {:induction false} ChronologyEmbeds(t: Tables, t': Tables, es: seq<Entry>, es': seq<Entry>)
    requires Sound(t) && Sound(t') && Grew(t, t')
    requires Strict(es, EARLIER) && Strict(es', EARLIER)
    requires forall e :: e in es ==> e in es' && e in t.entries
    ensures Embeds(ShowAll(t, es), ShowAll(t', es'))
    decreases |es'|
  {
    if es != [] {
      assert es[0] in es' && es[0] in t.entries;
      if es'[0] == es[0] {
        EntryIsCarried(t, t', es[0]);
        forall e | e in es[1..] ensures e in es'[1..] && e in t.entries {
          assert e in es;
        }
        ChronologyEmbeds(t, t', es[1..], es'[1..]);
      } else {
        forall e | e in es ensures e in es'[1..] {
          assert e in es' && es[0] in es'[1..];
        }
        ChronologyEmbeds(t, t', es, es'[1..]);
      }
    }
  }

  /** Every earlier reading of a case is a subsequence of every later one, with nothing in it rewritten. */
  lemma EarlierReadingsStand(t: Tables, steps: seq<Step>, c: Id)
    requires Sound(t) && AllTimely(t, steps)
    ensures Embeds(Listing(t, c), Listing(Run(t, steps), c))
  {
    var t' := Run(t, steps);
    RunGrows(t, steps);
    Chronology(t, c);
    Chronology(t', c);
    ChronologyEmbeds(t, t', Sort(InCase(t.entries, c), EARLIER), Sort(InCase(t'.entries, c), EARLIER));
  }

  function Empty(owners: map<Id, Id>): Tables {
    Tables(owners, map[], map[], map[], [], [])
  }

  /** In particular of every reading since the first row was written. */
  lemma EverySinceTheFirstStands(owners: map<Id, Id>, earlier: seq<Step>, later: seq<Step>, c: Id)
    requires AllTimely(Empty(owners), earlier) && AllTimely(Run(Empty(owners), earlier), later)
    ensures Embeds(Listing(Run(Empty(owners), earlier), c), Listing(Run(Run(Empty(owners), earlier), later), c))
  {
    RunGrows(Empty(owners), earlier);
    EarlierReadingsStand(Run(Empty(owners), earlier), later, c);
  }

  lemma {:induction false} ShownAt(t: Tables, es: seq<Entry>, i: nat)
    requires i < |es|
    ensures |ShowAll(t, es)| == |es| && ShowAll(t, es)[i] == Show(t, es[i])
  {
    if |es| > 1 {
      ShownAt(t, es[1..], if i == 0 then 0 else i - 1);
    }
  }

  /** The passage's own words, its page's number and its document's title. */
  ghost predicate CitesPassage(t: Tables, p: Id, c: Citation) {
    && Cited(t, p)
    && var page := t.pages[t.passages[p].page];
    c.quote == t.passages[p].quote && c.page == page.number && c.document == page.document && c.title == t.titles[page.document]
  }

  /**
   * An entry carries a citation exactly when it was read out of a document, and then its passage's own words, its
   * page's number and its document's title.
   */
  lemma CitedIffDocumentary(t: Tables, es: seq<Entry>, i: nat)
    requires Sound(t) && (forall e :: e in es ==> e in t.entries) && i < |es|
    ensures |ShowAll(t, es)| == |es|
    ensures var s := ShowAll(t, es)[i];
      && (s.citation.Some? <==> s.provenance == DocumentDerived)
      && (s.citation.Some? ==> es[i].passage.Some? && CitesPassage(t, es[i].passage.value, s.citation.value))
  {
    ShownAt(t, es, i);
    assert es[i] in es;
    assert EntryFits(t, es[i]);
  }

  /** The case's rows in reading order. */
  function CaseRows(t: Tables, c: Id): seq<Entry> {
    Sort(InCase(t.entries, c), EARLIER)
  }

  /** A listing shows the case's rows one by one, each with its own fields. */
  lemma ListingShowsRows(t: Tables, c: Id, i: nat)
    requires i < |Listing(t, c)|
    ensures |Listing(t, c)| == |CaseRows(t, c)|
    ensures var shown, e := Listing(t, c)[i], CaseRows(t, c)[i];
      && shown.id == e.id && shown.kind == e.kind && shown.provenance == e.provenance && shown.summary == e.summary
      && shown.occurredAt == e.occurredAt && shown.precision == e.precision
  {
    ShownLength(t, CaseRows(t, c));
    ShownAt(t, CaseRows(t, c), i);
  }

  lemma {:induction false} ShownLength(t: Tables, es: seq<Entry>)
    ensures |ShowAll(t, es)| == |es|
  {
    if es != [] {
      ShownLength(t, es[1..]);
    }
  }

  /** They are exactly the case's entries, each once, earliest first, and as recorded where two share a date. */
  lemma RowsAreTheCase(t: Tables, c: Id, i: nat, j: nat)
    requires Sound(t) && i < j < |CaseRows(t, c)|
    ensures var e, later := CaseRows(t, c)[i], CaseRows(t, c)[j];
      e.occurredAt < later.occurredAt || (e.occurredAt == later.occurredAt && e.createdAt < later.createdAt)
    ensures forall e :: e in CaseRows(t, c) <==> e in t.entries && e.inCase == c
  {
    Chronology(t, c);
  }

  /** Beside an entry stand exactly its notes, oldest first, each with its own words. */
  lemma NotesAreItsOwn(t: Tables, e: Entry, i: nat, j: nat)
    requires Sound(t) && i < j < |Show(t, e).notes|
    ensures var rows := Sort(Beside(t.notes, e.id), OLDER);
      && |Show(t, e).notes| == |rows|
      && Show(t, e).notes[i] == ShownNote(rows[i].id, rows[i].body, rows[i].createdAt)
      && rows[i] in t.notes && rows[i].entry == e.id
      && rows[i].createdAt < rows[j].createdAt
      && forall n :: n in t.notes && n.entry == e.id ==> n in rows
  {
    NotesInOrder(t, e.id);
    assert Sort(Beside(t.notes, e.id), OLDER)[i] in Sort(Beside(t.notes, e.id), OLDER);
  }

  lemma EntriesAreListed(t: Tables, c: Id, e: Entry)
    requires Sound(t) && e in t.entries && e.inCase == c
    ensures Show(t, e) in Listing(t, c)
  {
    Chronology(t, c);
    var es := CaseRows(t, c);
    var i: nat :| i < |es| && es[i] == e;
    ShownAt(t, es, i);
  }

  /** What an account records is its own assertion, in its own case, cites nothing, and is in the very next listing. */
  lemma RecordedEntriesAreListed(t: Tables, account: Id, c: Id, id: Id, d: Draft, at: int)
    requires Sound(t) && Fresh(t, id, at) && c in t.owners && t.owners[c] == account
    ensures var t' := AfterEntry(t, account, c, id, d, at);
      && t'.entries == t.entries +
        [Entry(id, c, d.kind, UserAsserted, None, Some(account), d.occurredAt, d.precision, d.summary, at)]
      && t'.notes == t.notes
      && Shown(id, d.kind, UserAsserted, d.occurredAt, d.precision, d.summary, None, []) in Listing(t', c)
  {
    var t', e := AfterEntry(t, account, c, id, d, at), Drafted(account, c, id, d, at);
    AddingAnEntryKeepsSound(t, e);
    EntriesAreListed(t', c, e);
    NothingBesideTheNew(t, id, at);
    assert Show(t', e) == Shown(id, d.kind, UserAsserted, d.occurredAt, d.precision, d.summary, None, []);
  }

  /** Only a case's owner adds to it: nobody else's attempt leaves anything behind, nor does a note on an entry elsewhere. */
  lemma OthersAddNothing(t: Tables, account: Id, c: Id, id: Id, d: Draft, entry: Id, body: string, at: int)
    ensures (c, account) !in t.owners.Items ==>
      AfterEntry(t, account, c, id, d, at) == t && AfterNote(t, account, c, entry, id, body, at) == t
    ensures (forall e :: e in t.entries && e.id == entry ==> e.inCase != c) ==>
      AfterNote(t, account, c, entry, id, body, at) == t
    ensures (c, account) in t.owners.Items && (exists e :: e in t.entries && e.id == entry && e.inCase == c) ==>
      AfterNote(t, account, c, entry, id, body, at) == t.(notes := t.notes + [Note(id, entry, account, body, at)])
  {
  }

  /** How the rows are stored never shows: reading again, whatever the storage order, gives the same chronology. */
  lemma ReadingIsStable(t: Tables, entries: seq<Entry>, notes: seq<Note>, c: Id)
    requires Sound(t) && multiset(entries) == multiset(t.entries) && multiset(notes) == multiset(t.notes)
    ensures Listing(t.(entries := entries, notes := notes), c) == Listing(t, c)
  {
    var t' := t.(entries := entries, notes := notes);
    var step := Rearrange(entries, notes);
    StepKeepsSound(t, step);
    SameRows(entries, t.entries);
    SameRows(notes, t.notes);
    Chronology(t, c);
    Chronology(t', c);
    var es := Sort(InCase(t.entries, c), EARLIER);
    StrictIsUnique(es, Sort(InCase(t'.entries, c), EARLIER), EARLIER);
    SameNotesSameShowing(t, t', es);
  }

  lemma {:induction false} SameNotesSameShowing(t: Tables, t': Tables, es: seq<Entry>)
    requires Sound(t) && Sound(t') && t'.passages == t.passages && t'.pages == t.pages && t'.titles == t.titles
    requires forall n :: n in t.notes <==> n in t'.notes
    ensures ShowAll(t', es) == ShowAll(t, es)
  {
    if es != [] {
      NotesInOrder(t, es[0].id);
      NotesInOrder(t', es[0].id);
      StrictIsUnique(Sort(Beside(t.notes, es[0].id), OLDER), Sort(Beside(t'.notes, es[0].id), OLDER), OLDER);
      SameNotesSameShowing(t, t', es[1..]);
    }
  }

}
