/**
 * Whole runs of the document pipeline. Ingest is split where its two stores part company, so any number of
 * half-done ingests interleave with OCR jobs, deletions and each other, and any of them may stop for good.
 */
module LibraryRuns {
  import opened Wrappers
  import opened Text
  import opened Documents
  import opened Ocr
  import opened Library
  import C = Citations

  datatype Put = Put(caseId: CaseId, data: Bytes)

  /**
   * The two stores, the ingests between their blob and their row, and two histories: every case id ever
   * opened, and every document as it was on the day it was ingested.
   */
  datatype World = World(
    lib: Library, inflight: map<nat, Put>, everOpened: set<CaseId>, born: map<DocumentId, Document>)

  datatype Step =
    | OpenCase(caseId: CaseId, owner: UserId)
    | PutBlob(request: nat, caseId: CaseId, data: Bytes)
    | CommitDocument(request: nat, id: DocumentId, reader: PdfReader)
    | AbandonIngest(request: nat)
    | RunOcr(id: DocumentId, reachable: bool, reply: EngineReply)
    | DeleteAccount(user: UserId, failing: set<string>)

  function Empty(): World {
    World(Library(map[], map[], [], map[]), map[], {}, map[])
  }

  /** Case and document ids are fresh UUIDs; a step that does not apply changes nothing. */
  function Apply(w: World, sha: Bytes -> string, step: Step): World {
    match step
    case OpenCase(c, owner) =>
      if c in w.everOpened then w
      else w.(lib := w.lib.(cases := w.lib.cases[c := owner]), everOpened := w.everOpened + {c})
    case PutBlob(request, c, data) =>
      if c !in w.lib.cases || Known(w.lib, c, sha(data)) then w
      else w.(lib := PutStep(w.lib, sha, c, data), inflight := w.inflight[request := Put(c, data)])
    case CommitDocument(request, id, reader) =>
      if request !in w.inflight || id in w.born then w
      else
        var put := w.inflight[request];
        var lib := CommitStep(w.lib, sha, put.caseId, put.data, reader, id);
        w.(
          lib := lib,
          inflight := w.inflight - {request},
          born := if id in lib.documents then w.born[id := lib.documents[id]] else w.born)
    case AbandonIngest(request) => w.(inflight := w.inflight - {request})
    case RunOcr(id, reachable, reply) => w.(lib := OcrStep(w.lib, id, reachable, reply))
    case DeleteAccount(user, failing) => w.(lib := DeleteStep(w.lib, user, failing))
  }

  function Run(w: World, sha: Bytes -> string, steps: seq<Step>): World {
    if steps == [] then w else Apply(Run(w, sha, steps[..|steps| - 1]), sha, steps[|steps| - 1])
  }

  /** The bytes under the key of this case and digest have that digest. */
  predicate Resolves(lib: Library, sha: Bytes -> string, caseId: CaseId, digest: string) {
    var key := StorageKey(caseId, digest);
    key in lib.blobs && sha(lib.blobs[key]) == digest
  }

  /** Every row's key resolves, and no two rows share a key. */
  ghost predicate RowsHaveBytes(lib: Library, sha: Bytes -> string) {
    && (forall d :: d in lib.documents ==>
      var row := lib.documents[d];
      && row.caseId in lib.cases
      && row.storageKey == StorageKey(row.caseId, row.contentHash)
      && Resolves(lib, sha, row.caseId, row.contentHash))
    && forall d, e :: d in lib.documents && e in lib.documents && d != e ==>
      lib.documents[d].storageKey != lib.documents[e].storageKey
  }

  ghost predicate InflightHasBytes(w: World, sha: Bytes -> string) {
    forall r :: r in w.inflight ==>
      var put := w.inflight[r];
      && put.caseId in w.everOpened
      && (put.caseId in w.lib.cases ==> Resolves(w.lib, sha, put.caseId, sha(put.data)))
  }

  ghost predicate FreshlyIngested(document: Document) {
    && document.status == HonestStatus(document.pages)
    && forall i :: 0 <= i < |document.pages| ==> document.pages[i].confidence.None?
  }

  ghost predicate RowsAreHonest(w: World) {
    && (forall d :: d in w.born ==> FreshlyIngested(w.born[d]))
    && forall d :: d in w.lib.documents ==>
      && d in w.born
      && Kept(w.born[d], w.lib.documents[d])
      && StatusHonest(w.lib.documents[d])
  }

  /** A document has its one OCR job exactly when it was ingested needing OCR. */
  ghost predicate JobsMatch(w: World) {
    forall d :: multiset(w.lib.jobs)[d] == if d in w.born && w.born[d].status == NeedsOcr then 1 else 0
  }

  ghost predicate Sound(w: World, sha: Bytes -> string) {
    && w.lib.cases.Keys <= w.everOpened
    && RowsHaveBytes(w.lib, sha)
    && InflightHasBytes(w, sha)
    && RowsAreHonest(w)
    && JobsMatch(w)
  }

  lemma PutKeepsSound(w: World, sha: Bytes -> string, request: nat, c: CaseId, data: Bytes)
    requires Sound(w, sha)
    ensures Sound(Apply(w, sha, PutBlob(request, c, data)), sha)
  {
    var w' := Apply(w, sha, PutBlob(request, c, data));
    forall c', digest | Resolves(w.lib, sha, c', digest) ensures Resolves(w'.lib, sha, c', digest) {
      if StorageKey(c', digest) == StorageKey(c, sha(data)) {
        StorageKeyInjective(c', digest, c, sha(data));
      }
    }
    assert forall d :: d in w.lib.documents ==>
      Resolves(w'.lib, sha, w.lib.documents[d].caseId, w.lib.documents[d].contentHash);
  }

  /** The row a commit adds has its own key, and its bytes were put there earlier. */
  lemma CommitKeepsBytes(
    lib: Library, sha: Bytes -> string, c: CaseId, data: Bytes, reader: PdfReader, id: DocumentId)
    requires RowsHaveBytes(lib, sha) && id !in lib.documents
    requires c in lib.cases ==> Resolves(lib, sha, c, sha(data))
    ensures RowsHaveBytes(CommitStep(lib, sha, c, data, reader, id), sha)
  {
    if Refusal(reader, DEFAULT_CAPS).None? && Insertable(lib, sha, c, data) {
      forall d | d in lib.documents
        ensures lib.documents[d].storageKey != StorageKey(c, sha(data))
      {
        if lib.documents[d].storageKey == StorageKey(c, sha(data)) {
          StorageKeyInjective(lib.documents[d].caseId, lib.documents[d].contentHash, c, sha(data));
        }
      }
    }
  }

  lemma CommitKeepsHonest(w: World, sha: Bytes -> string, request: nat, id: DocumentId, reader: PdfReader)
    requires RowsAreHonest(w)
    ensures RowsAreHonest(Apply(w, sha, CommitDocument(request, id, reader)))
  {
    if request in w.inflight && id !in w.born {
      var put := w.inflight[request];
      if Refusal(reader, DEFAULT_CAPS).None? && Insertable(w.lib, sha, put.caseId, put.data) {
        var row := NewDocument(sha, put.caseId, put.data, reader);
        assert FreshlyIngested(row) && Kept(row, row) && StatusHonest(row);
      }
    }
  }

  lemma CommitKeepsSound(w: World, sha: Bytes -> string, request: nat, id: DocumentId, reader: PdfReader)
    requires Sound(w, sha)
    ensures Sound(Apply(w, sha, CommitDocument(request, id, reader)), sha)
  {
    CommitKeepsHonest(w, sha, request, id, reader);
    if request in w.inflight && id !in w.born {
      var put := w.inflight[request];
      CommitKeepsBytes(w.lib, sha, put.caseId, put.data, reader, id);
    }
  }

  lemma DeleteKeepsSound(w: World, sha: Bytes -> string, user: UserId, failing: set<string>)
    requires Sound(w, sha)
    ensures Sound(Apply(w, sha, DeleteAccount(user, failing)), sha)
  {
    var w' := Apply(w, sha, DeleteAccount(user, failing));
    forall c: CaseId, digest | c in w'.lib.cases && Resolves(w.lib, sha, c, digest)
      ensures Resolves(w'.lib, sha, c, digest)
    {
      PurgeSparesOthers(w, sha, user, failing, c, digest);
    }
    assert forall d :: d in w'.lib.documents ==> w'.lib.documents[d].caseId in w'.lib.cases;
  }

  /** A purge leaves alone every key under a case the deleted account did not own. */
  lemma PurgeSparesOthers(
    w: World, sha: Bytes -> string, user: UserId, failing: set<string>, c: CaseId, digest: string)
    requires Sound(w, sha) && c in w.lib.cases && w.lib.cases[c] != user
    ensures var before, after, key := w.lib.blobs, DeleteStep(w.lib, user, failing).blobs, StorageKey(c, digest);
      && (key in after <==> key in before)
      && (key in before ==> after[key] == before[key])
  {
    var key := StorageKey(c, digest);
    if key in KeysOf(w.lib, user) {
      var d :| d in DocumentsOf(w.lib, user) && w.lib.documents[d].storageKey == key;
      StorageKeyInjective(w.lib.documents[d].caseId, w.lib.documents[d].contentHash, c, digest);
    }
  }

  /**
   * The purge runs in the handler, before its transaction commits. If that commit then fails, the rows come
   * back while purged blobs do not: every row still has its bytes exactly when nothing was purged.
   */
  lemma CommitFailingAfterPurge(lib: Library, sha: Bytes -> string, user: UserId, failing: set<string>)
    requires RowsHaveBytes(lib, sha)
    ensures RowsHaveBytes(lib.(blobs := DeleteStep(lib, user, failing).blobs), sha) <==> KeysOf(lib, user) <= failing
  {
    if key :| key in KeysOf(lib, user) && key !in failing {
      var d :| d in DocumentsOf(lib, user) && lib.documents[d].storageKey == key;
      assert !Resolves(lib.(blobs := DeleteStep(lib, user, failing).blobs), sha,
                       lib.documents[d].caseId, lib.documents[d].contentHash);
    } else {
      assert DeleteStep(lib, user, failing).blobs == lib.blobs;
    }
  }

  /** Any rewrite of a row that keeps what `Kept` keeps and stays honest is harmless. */
  lemma RewriteKeepsSound(w: World, sha: Bytes -> string, id: DocumentId, after: Document)
    requires Sound(w, sha) && id in w.lib.documents
    requires Kept(w.lib.documents[id], after) && StatusHonest(after)
    ensures Sound(w.(lib := w.lib.(documents := w.lib.documents[id := after])), sha)
  {
    KeptTransitively(w.born[id], w.lib.documents[id], after);
  }

  lemma OcrKeepsSound(w: World, sha: Bytes -> string, id: DocumentId, reachable: bool, reply: EngineReply)
    requires Sound(w, sha)
    ensures Sound(Apply(w, sha, RunOcr(id, reachable, reply)), sha)
  {
    if id in w.lib.documents {
      var stored := reachable && w.lib.documents[id].storageKey in w.lib.blobs;
      OcrKeeps(w.lib.documents[id], stored, reply);
      RewriteKeepsSound(w, sha, id, AfterOcr(w.lib.documents[id], stored, reply).0);
    }
  }

  lemma StepKeepsSound(w: World, sha: Bytes -> string, step: Step)
    requires Sound(w, sha)
    ensures Sound(Apply(w, sha, step), sha)
  {
    match step
    case OpenCase(c, owner) =>
    case PutBlob(request, c, data) => PutKeepsSound(w, sha, request, c, data);
    case CommitDocument(request, id, reader) => CommitKeepsSound(w, sha, request, id, reader);
    case AbandonIngest(request) =>
    case RunOcr(id, reachable, reply) => OcrKeepsSound(w, sha, id, reachable, reply);
    case DeleteAccount(user, failing) => DeleteKeepsSound(w, sha, user, failing);
  }

  /**
   * In every reachable state each row's bytes are there under a key of its own, `complete` and `needs_ocr`
   * mean what they say, unmeasured text is the ingested text, and a document has its one OCR job exactly
   * when it was ingested needing OCR.
   */
  lemma {:induction false} RunKeepsSound(w: World, sha: Bytes -> string, steps: seq<Step>)
    requires Sound(w, sha)
    ensures Sound(Run(w, sha, steps), sha)
  {
    if steps != [] {
      RunKeepsSound(w, sha, steps[..|steps| - 1]);
      StepKeepsSound(Run(w, sha, steps[..|steps| - 1]), sha, steps[|steps| - 1]);
    }
  }

  lemma EveryRunIsSound(sha: Bytes -> string, steps: seq<Step>)
    ensures Sound(Run(Empty(), sha, steps), sha)
  {
    RunKeepsSound(Empty(), sha, steps);
  }

  lemma OcrKeepsPages(lib: Library, id: DocumentId, reachable: bool, reply: EngineReply, d: DocumentId)
    requires d in lib.documents
    ensures Kept(lib.documents[d], OcrStep(lib, id, reachable, reply).documents[d])
  {
    if id in lib.documents {
      OcrKeeps(lib.documents[id], reachable && lib.documents[id].storageKey in lib.blobs, reply);
    }
  }

  lemma StepKeepsPages(w: World, sha: Bytes -> string, step: Step, d: DocumentId)
    requires d in w.born && d in Apply(w, sha, step).lib.documents
    ensures d in w.lib.documents && Kept(w.lib.documents[d], Apply(w, sha, step).lib.documents[d])
    ensures d in Apply(w, sha, step).born
  {
    if step.RunOcr? {
      OcrKeepsPages(w.lib, step.id, step.reachable, step.reply, d);
    }
  }

  /** Whatever happens next, a page that has text keeps its text and confidence while its document exists. */
  lemma {:induction false} RunKeepsPages(w: World, sha: Bytes -> string, steps: seq<Step>, d: DocumentId)
    requires d in w.born && d in Run(w, sha, steps).lib.documents
    ensures d in w.lib.documents && Kept(w.lib.documents[d], Run(w, sha, steps).lib.documents[d])
    ensures d in Run(w, sha, steps).born
  {
    if steps != [] {
      var front := steps[..|steps| - 1];
      var mid := Run(w, sha, front);
      RunKeepsBorn(w, sha, front, d);
      StepKeepsPages(mid, sha, steps[|steps| - 1], d);
      RunKeepsPages(w, sha, front, d);
      KeptTransitively(w.lib.documents[d], mid.lib.documents[d], Run(w, sha, steps).lib.documents[d]);
    }
  }

  lemma {:induction false} RunKeepsBorn(w: World, sha: Bytes -> string, steps: seq<Step>, d: DocumentId)
    requires d in w.born
    ensures d in Run(w, sha, steps).born
  {
    if steps != [] {
      RunKeepsBorn(w, sha, steps[..|steps| - 1], d);
    }
  }

  /**
   * End to end: a passage whose non-blank quote matched its page when recorded still matches after any run,
   * and the viewer, given the page's passages in any order, draws every position of it as cited.
   */
  method ReadAfterRun(
    ghost w: World, ghost sha: Bytes -> string, ghost steps: seq<Step>, ghost d: DocumentId, ghost page: nat,
    text: string, stored: seq<C.Passage>, ghost p: C.Passage)
    returns (out: seq<C.Run>)
    requires Sound(w, sha) && d in w.lib.documents && d in Run(w, sha, steps).lib.documents
    requires page < |w.lib.documents[d].pages| == |Run(w, sha, steps).lib.documents[d].pages|
    requires text == Run(w, sha, steps).lib.documents[d].pages[page].text
    requires p in stored && forall q :: q in stored ==> C.Storable(q)
    requires C.Matches(w.lib.documents[d].pages[page].text, p) && HasText(p.quote)
    ensures C.Spelled(out) == text && |C.Marks(out)| == |text|
    ensures C.Matches(C.Spelled(out), p)
    ensures forall i: nat :: p.start <= i < p.end ==> C.Marks(out)[i]
  {
    RunKeepsPages(w, sha, steps, d);
    var before, after := w.lib.documents[d], Run(w, sha, steps).lib.documents[d];
    CitedQuoteSurvives(before, after, page, stored, p);
    out := C.ReadAndHighlight(text, stored);
  }

}
