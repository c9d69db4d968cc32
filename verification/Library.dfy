/**
 * Two stores that have to agree: document rows in the database and their bytes in the blob store. Ingest
 * writes the blob first, deletion removes it last, OCR rewrites rows in between.
 */
module Library {
  import opened Wrappers
  import opened Text
  import opened Documents
  import opened Ocr

  datatype Library = Library(
    cases: map<CaseId, UserId>,
    documents: map<DocumentId, Document>,
    jobs: seq<DocumentId>,
    blobs: map<string, Bytes>)

  datatype IngestError = Duplicate(existing: DocumentId) | StoreFailed | Pdf(error: PdfError) | DatabaseFailed

  function StorageKey(caseId: CaseId, digest: string): string {
    "cases/" + caseId + "/documents/" + digest
  }

  /** A key names one case and one digest, because a case id has no slash in it. */
  lemma StorageKeyInjective(c1: CaseId, d1: string, c2: CaseId, d2: string)
    requires StorageKey(c1, d1) == StorageKey(c2, d2)
    ensures c1 == c2 && d1 == d2
  {
    var k1, k2 := StorageKey(c1, d1), StorageKey(c2, d2);
    assert k1[6 + |c1|] == '/' && k2[6 + |c2|] == '/';
    assert forall i: nat :: i < |c1| ==> k1[6 + i] == c1[i];
    assert forall i: nat :: i < |c2| ==> k2[6 + i] == c2[i];
    assert |c1| == |c2|;
    assert k1[6..6 + |c1|] == c1 && k2[6..6 + |c2|] == c2;
    assert k1[6 + |c1| + 11..] == d1 && k2[6 + |c2| + 11..] == d2;
  }

  /** These exact bytes, as far as their digest tells, are already in the case. */
  predicate Known(lib: Library, caseId: CaseId, digest: string) {
    exists d :: d in lib.documents && lib.documents[d].caseId == caseId && lib.documents[d].contentHash == digest
  }

  function NewDocument(sha: Bytes -> string, caseId: CaseId, data: Bytes, reader: PdfReader): Document {
    var pages := seq(|reader.pages|, i requires 0 <= i < |reader.pages| => IngestedPage(reader, i, DEFAULT_CAPS));
    Document(caseId, StorageKey(caseId, sha(data)), sha(data), HonestStatus(pages), pages)
  }

  /** First half of ingest, ending with the blob in the store. */
  function PutStep(lib: Library, sha: Bytes -> string, caseId: CaseId, data: Bytes): Library {
    if Known(lib, caseId, sha(data)) then lib
    else lib.(blobs := lib.blobs[StorageKey(caseId, sha(data)) := data])
  }

  /** What the database refuses at the flush: no such case, or the unique (case, hash) pair is taken. */
  predicate Insertable(lib: Library, sha: Bytes -> string, caseId: CaseId, data: Bytes) {
    caseId in lib.cases && !Known(lib, caseId, sha(data))
  }

  /** Second half of ingest: the row, its job and its pages, all or nothing. */
  function CommitStep(
    lib: Library, sha: Bytes -> string, caseId: CaseId, data: Bytes, reader: PdfReader, id: DocumentId): Library
  {
    if Refusal(reader, DEFAULT_CAPS).Some? || !Insertable(lib, sha, caseId, data) then lib
    else
      var document := NewDocument(sha, caseId, data, reader);
      lib.(
        documents := lib.documents[id := document],
        jobs := if document.status == NeedsOcr then lib.jobs + [id] else lib.jobs)
  }

  function OcrStep(lib: Library, id: DocumentId, reachable: bool, reply: EngineReply): Library {
    if id !in lib.documents then lib
    else
      var stored := reachable && lib.documents[id].storageKey in lib.blobs;
      lib.(documents := lib.documents[id := AfterOcr(lib.documents[id], stored, reply).0])
  }

  predicate OwnedBy(lib: Library, id: DocumentId, user: UserId) {
    && id in lib.documents
    && lib.documents[id].caseId in lib.cases
    && lib.cases[lib.documents[id].caseId] == user
  }

  function CasesOf(lib: Library, user: UserId): set<CaseId> {
    set c | c in lib.cases && lib.cases[c] == user
  }

  function DocumentsOf(lib: Library, user: UserId): set<DocumentId> {
    set d | d in lib.documents && OwnedBy(lib, d, user)
  }

  /** Every blob key belonging to the account. */
  function KeysOf(lib: Library, user: UserId): set<string> {
    set d | d in DocumentsOf(lib, user) :: lib.documents[d].storageKey
  }

  /** Rows first, then the blobs whose delete did not fail. */
  function DeleteStep(lib: Library, user: UserId, failing: set<string>): Library {
    Library(
      map c | c in lib.cases && lib.cases[c] != user :: lib.cases[c],
      map d | d in lib.documents && !OwnedBy(lib, d, user) :: lib.documents[d],
      lib.jobs,
      lib.blobs - (KeysOf(lib, user) - failing))
  }

  class LibraryService {
    const sha: Bytes -> string
    var cases: map<CaseId, UserId>
    var documents: map<DocumentId, Document>
    var jobs: seq<DocumentId>
    var blobs: map<string, Bytes>

    constructor (sha: Bytes -> string)
      ensures this.sha == sha && State() == Library(map[], map[], [], map[])
    {
      this.sha := sha;
      cases, documents, jobs, blobs := map[], map[], [], map[];
    }

    function State(): Library
      reads this
    {
      Library(cases, documents, jobs, blobs)
    }

    /**
     * `ingest_document` inside its request transaction. `putFails` and `flushFails` are the store and the
     * database failing; on any failure the rows are rolled back and at most the blob remains.
     */
    method IngestDocument(caseId: CaseId, data: Bytes, reader: PdfReader, id: DocumentId, putFails: bool, flushFails: bool)
      returns (r: Result<DocumentId, IngestError>)
      requires id !in documents
      modifies this
      ensures Known(old(State()), caseId, sha(data)) <==> r.Err? && r.error.Duplicate?
      ensures r.Err? && r.error.Duplicate? ==>
        && State() == old(State()) && r.error.existing in documents
        && documents[r.error.existing].caseId == caseId && documents[r.error.existing].contentHash == sha(data)
      ensures r.Err? && r.error.StoreFailed? ==> putFails && State() == old(State())
      ensures r.Err? && (r.error.Pdf? || r.error.DatabaseFailed?) ==> State() == PutStep(old(State()), sha, caseId, data)
      ensures r.Err? && r.error.Pdf? ==> Refusal(reader, DEFAULT_CAPS) == Some(r.error.error)
      ensures r.Ok? <==> Insertable(old(State()), sha, caseId, data) && !putFails && Refusal(reader, DEFAULT_CAPS).None? && !flushFails
      ensures r.Ok? ==>
        && r.value == id
        && State() == CommitStep(PutStep(old(State()), sha, caseId, data), sha, caseId, data, reader, id)
    {
      var digest := sha(data);
      if Known(State(), caseId, digest) {
        var existing :| existing in documents && documents[existing].caseId == caseId && documents[existing].contentHash == digest;
        return Err(Duplicate(existing));
      }
      var key := StorageKey(caseId, digest);
      if putFails {
        return Err(StoreFailed);
      }
      blobs := blobs[key := data];

      var extraction := ExtractTextLayer(reader, DEFAULT_CAPS);
      if extraction.Err? {
        return Err(Pdf(extraction.error));
      }
      var savedDocuments, savedJobs := documents, jobs;
      if caseId !in cases {
        return Err(DatabaseFailed);
      }
      var needsOcr := NeedsOcrPages(extraction.value);
      var row := Document(caseId, key, digest, if needsOcr then NeedsOcr else Complete, []);
      documents := documents[id := row];
      if needsOcr {
        jobs := jobs + [id];
      }
      documents := documents[id := row.(pages := extraction.value)];
      if flushFails {
        documents, jobs := savedDocuments, savedJobs;
        return Err(DatabaseFailed);
      }
      assert documents[id] == NewDocument(sha, caseId, data, reader);
      assert documents == savedDocuments[id := documents[id]];
      return Ok(id);
    }

    /** `run_ocr_for_document`. `reachable` is false when fetching the stored bytes raises. */
    method RunOcr(id: DocumentId, reachable: bool, reply: EngineReply) returns (r: Result<nat, Failure>)
      modifies this`documents
      ensures id !in old(documents) ==> r == Err(NoDocument) && documents == old(documents)
      ensures State() == OcrStep(old(State()), id, reachable, reply)
      ensures id in old(documents) ==>
        r == AfterOcr(old(documents)[id], reachable && old(documents)[id].storageKey in blobs, reply).1
    {
      if id !in documents {
        return Err(NoDocument);
      }
      var saved := documents;
      var before := documents[id];
      documents := documents[id := before.(status := Processing)];
      if !reachable || before.storageKey !in blobs {
        return Err(MissingObject);
      }
      if reply.Unavailable? {
        return Err(NoEngine);
      }
      if reply.Broken? {
        return Err(EngineFailed);
      }
      var byNumber := IndexByNumber(reply.pages);
      var pages, filled := FillBlankPages(before.pages, reply.pages, byNumber);
      if !StorablePages(pages) {
        documents := saved;
        assert documents[id := before] == documents;
        return Err(ConstraintViolated);
      }
      documents := documents[id := before.(pages := pages, status := HonestStatus(pages))];
      assert documents == saved[id := documents[id]];
      return Ok(filled);
    }

    /** `{page.page_number: page for page in pages}`. */
    static method IndexByNumber(reply: seq<OcrPage>) returns (byNumber: map<int, OcrPage>)
      ensures forall n :: LastRead(reply, n) == if n in byNumber then Some(byNumber[n]) else None
    {
      byNumber := map[];
      for k := 0 to |reply|
        invariant forall n :: LastRead(reply[..k], n) == if n in byNumber then Some(byNumber[n]) else None
      {
        assert reply[..k + 1][..k] == reply[..k];
        byNumber := byNumber[reply[k].number := reply[k]];
      }
      assert reply[..|reply|] == reply;
    }

    /** The loop over the stored pages. */
    static method FillBlankPages(stored: seq<Page>, reply: seq<OcrPage>, byNumber: map<int, OcrPage>)
      returns (pages: seq<Page>, filled: nat)
      requires forall n :: LastRead(reply, n) == if n in byNumber then Some(byNumber[n]) else None
      ensures pages == Fill(stored, reply)
      ensures filled == Filled(stored, reply)
    {
      pages, filled := stored, 0;
      for k := 0 to |stored|
        invariant |pages| == |stored|
        invariant forall i :: 0 <= i < k ==> pages[i] == FillPage(stored[i], reply)
        invariant forall i :: k <= i < |stored| ==> pages[i] == stored[i]
        invariant filled == Filled(stored[..k], reply)
      {
        assert stored[..k + 1][..k] == stored[..k];
        assert LastRead(reply, stored[k].number).Some? <==> stored[k].number as int in byNumber;
        if HasText(pages[k].text) || pages[k].number !in byNumber {
          continue;
        }
        var read := byNumber[pages[k].number];
        pages := pages[k := pages[k].(text := read.text, confidence := Some(read.confidence))];
        filled := filled + 1;
      }
      assert stored[..|stored|] == stored;
    }

    /** `collect_storage_keys`: one entry per owned document, in whatever order the query returns them. */
    method CollectStorageKeys(user: UserId) returns (keys: seq<string>)
      ensures forall k :: k in keys <==> k in KeysOf(State(), user)
      ensures |keys| == |DocumentsOf(State(), user)|
    {
      keys := [];
      var owned := DocumentsOf(State(), user);
      var todo := owned;
      while todo != {}
        invariant todo <= owned && |keys| + |todo| == |owned|
        invariant forall k :: k in keys <==> exists d :: d in owned - todo && documents[d].storageKey == k
      {
        var d :| d in todo;
        keys := keys + [documents[d].storageKey];
        todo := todo - {d};
      }
    }

    /** `purge_objects`: each delete is attempted on its own, and successes are counted. */
    method PurgeObjects(keys: seq<string>, failing: set<string>) returns (removed: nat)
      modifies this`blobs
      ensures blobs == old(blobs) - ((set k | k in keys) - failing)
      ensures removed == |keys| - |Failures(keys, failing)|
    {
      removed := 0;
      for i := 0 to |keys|
        invariant blobs == old(blobs) - ((set k | k in keys[..i]) - failing)
        invariant removed == i - |Failures(keys[..i], failing)|
      {
        assert keys[..i + 1][..i] == keys[..i];
        if keys[i] in failing {
          continue;
        }
        blobs := blobs - {keys[i]};
        removed := removed + 1;
      }
      assert keys[..|keys|] == keys;
    }

    /** Collect, delete the rows, purge: the order that never leaves a row without its bytes. */
    method DeleteOwnAccount(user: UserId, failing: set<string>)
      returns (casesDeleted: nat, documentsDeleted: nat, objectsRemoved: nat)
      modifies this
      ensures State() == DeleteStep(old(State()), user, failing)
      ensures casesDeleted == |CasesOf(old(State()), user)|
      ensures documentsDeleted == |DocumentsOf(old(State()), user)|
      ensures objectsRemoved <= documentsDeleted
      ensures objectsRemoved == documentsDeleted <==> KeysOf(old(State()), user) !! failing
    {
      var keys := CollectStorageKeys(user);
      var before := State();
      casesDeleted := |CasesOf(before, user)|;
      documents := map d | d in documents && !OwnedBy(before, d, user) :: documents[d];
      cases := map c | c in cases && cases[c] != user :: cases[c];
      objectsRemoved := PurgeObjects(keys, failing);
      documentsDeleted := |keys|;
      assert (set k | k in keys) == KeysOf(before, user);
      NoFailures(keys, failing);
    }
  }

  lemma KeysLeft<K, V>(m: map<K, V>, m': map<K, V>, gone: set<K>)
    requires m'.Keys == m.Keys - gone && gone <= m.Keys
    ensures |gone| + |m'| == |m|
  {
    assert m'.Keys + gone == m.Keys && m'.Keys !! gone;
    assert |m'| == |m'.Keys| && |m| == |m.Keys|;
  }

  /** The summary's counts and what is left add up to what there was. */
  lemma DeletionCountsAddUp(lib: Library, user: UserId, failing: set<string>)
    ensures |CasesOf(lib, user)| + |DeleteStep(lib, user, failing).cases| == |lib.cases|
    ensures |DocumentsOf(lib, user)| + |DeleteStep(lib, user, failing).documents| == |lib.documents|
  {
    var after := DeleteStep(lib, user, failing);
    KeysLeft(lib.cases, after.cases, CasesOf(lib, user));
    KeysLeft(lib.documents, after.documents, DocumentsOf(lib, user));
  }

  /** The keys whose delete failed, with repetition. */
  function Failures(keys: seq<string>, failing: set<string>): seq<string> {
    if keys == [] then []
    else
      var front := Failures(keys[..|keys| - 1], failing);
      if keys[|keys| - 1] in failing then front + [keys[|keys| - 1]] else front
  }

  lemma {:induction false} NoFailures(keys: seq<string>, failing: set<string>)
    ensures Failures(keys, failing) == [] <==> (set k | k in keys) !! failing
  {
    if keys != [] {
      var front := keys[..|keys| - 1];
      NoFailures(front, failing);
      assert keys == front + [keys[|keys| - 1]];
      assert (set k | k in keys) == (set k | k in front) + {keys[|keys| - 1]};
    }
  }

  /** After an ingest that goes through, the document is there with its own bytes, its pages, and a job if it needs one. */
  lemma IngestStoresTheDocument(
    lib: Library, sha: Bytes -> string, caseId: CaseId, data: Bytes, reader: PdfReader, id: DocumentId)
    requires reader.hasMagic && reader.opens && reader.countable && 1 <= |reader.pages| <= 2000
    requires reader.encrypted ==> reader.unlocked == Some(true)
    requires caseId in lib.cases
    requires forall d :: d in lib.documents ==> lib.documents[d].caseId != caseId || lib.documents[d].contentHash != sha(data)
    ensures var after := CommitStep(PutStep(lib, sha, caseId, data), sha, caseId, data, reader, id);
      && id in after.documents
      && var row := after.documents[id];
      && row.caseId == caseId && row.contentHash == sha(data)
      && row.storageKey in after.blobs && after.blobs[row.storageKey] == data
      && |row.pages| == |reader.pages|
      && (forall i :: 0 <= i < |row.pages| ==> row.pages[i].number == i + 1 && row.pages[i].confidence == None)
      && (forall i, t :: 0 <= i < |row.pages| && reader.pages[i] == Some(t) && |t| <= 200_000 ==> row.pages[i].text == t)
      && (row.status == NeedsOcr <==> exists i :: 0 <= i < |row.pages| && !HasText(row.pages[i].text))
      && (row.status == Complete <==> forall i :: 0 <= i < |row.pages| ==> HasText(row.pages[i].text))
      && after.jobs == lib.jobs + (if row.status == NeedsOcr then [id] else [])
      && after.cases == lib.cases
      && forall d :: d in lib.documents && d != id ==> d in after.documents && after.documents[d] == lib.documents[d]
  {
    ReadIff(reader, DEFAULT_CAPS);
  }

  /** Deletion takes every case and document of the account and each of its blobs that did not fail, and nothing else. */
  lemma DeletionTakesExactlyItsOwn(lib: Library, user: UserId, failing: set<string>)
    ensures var after := DeleteStep(lib, user, failing);
      && (forall c :: c in after.cases <==> c in lib.cases && lib.cases[c] != user)
      && (forall c :: c in after.cases ==> after.cases[c] == lib.cases[c])
      && (forall d :: d in after.documents <==>
        d in lib.documents && !(lib.documents[d].caseId in lib.cases && lib.cases[lib.documents[d].caseId] == user))
      && (forall d :: d in after.documents ==> after.documents[d] == lib.documents[d])
      && (forall d :: d in lib.documents && d !in after.documents && lib.documents[d].storageKey !in failing ==>
        lib.documents[d].storageKey !in after.blobs)
      && (forall k :: k in lib.blobs && (k in failing || forall d :: OwnedBy(lib, d, user) ==> lib.documents[d].storageKey != k) ==>
        k in after.blobs && after.blobs[k] == lib.blobs[k])
      && (forall k :: k in after.blobs ==> k in lib.blobs)
      && after.jobs == lib.jobs
  {
  }

  /** An OCR job changes no other document, and reads the bytes stored under this one's key. */
  lemma OcrTouchesOneDocument(lib: Library, id: DocumentId, reply: EngineReply)
    requires id in lib.documents
    ensures OcrStep(lib, id, true, reply) == lib.(documents := lib.documents[id :=
      AfterOcr(lib.documents[id], lib.documents[id].storageKey in lib.blobs, reply).0])
    ensures OcrStep(lib, id, false, reply) == lib.(documents := lib.documents[id := AfterOcr(lib.documents[id], false, reply).0])
  {
  }

}
