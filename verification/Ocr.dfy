/** What one OCR job does to one document row, and what any number of them cannot do. */
module Ocr {
  import opened Wrappers
  import opened Text
  import opened Documents
  import C = Citations

  datatype OcrPage = OcrPage(number: int, text: string, confidence: real)

  datatype EngineReply = Read(pages: seq<OcrPage>) | Unavailable | Broken

  datatype Failure = NoDocument | MissingObject | NoEngine | EngineFailed | ConstraintViolated

  /** The page the engine read as number `n`; a repeated number keeps its last reading. */
  function LastRead(reply: seq<OcrPage>, n: int): Option<OcrPage> {
    if reply == [] then None
    else if reply[|reply| - 1].number == n then Some(reply[|reply| - 1])
    else LastRead(reply[..|reply| - 1], n)
  }

  /** OCR fills a page only while it is blank. */
  function FillPage(page: Page, reply: seq<OcrPage>): Page {
    if HasText(page.text) then page
    else match LastRead(reply, page.number)
      case None => page
      case Some(read) => Page(page.number, read.text, Some(read.confidence))
  }

  function Fill(pages: seq<Page>, reply: seq<OcrPage>): (r: seq<Page>)
    ensures |r| == |pages|
    ensures forall i :: 0 <= i < |pages| ==> r[i] == FillPage(pages[i], reply)
  {
    seq(|pages|, i requires 0 <= i < |pages| => FillPage(pages[i], reply))
  }

  /** How many blank pages the engine had a reading for. */
  function Filled(pages: seq<Page>, reply: seq<OcrPage>): nat {
    if pages == [] then 0
    else
      var page := pages[|pages| - 1];
      Filled(pages[..|pages| - 1], reply)
      + if !HasText(page.text) && LastRead(reply, page.number).Some? then 1 else 0
  }

  /** The CHECK constraint on `ocr_confidence`. */
  predicate StorableConfidence(page: Page) {
    page.confidence.None? || 0.0 <= page.confidence.value <= 1.0
  }

  predicate StorablePages(pages: seq<Page>) {
    forall i :: 0 <= i < |pages| ==> StorableConfidence(pages[i])
  }

  function HonestStatus(pages: seq<Page>): OcrStatus {
    if AllRead(pages) then Complete else NeedsOcr
  }

  /**
   * The row and the outcome after one job. A failure after the first flush leaves the row `processing`;
   * a confidence outside the unit interval aborts the transaction, so the row is as it was.
   */
  function AfterOcr(document: Document, stored: bool, reply: EngineReply): (Document, Result<nat, Failure>) {
    if !stored then (document.(status := Processing), Err(MissingObject))
    else match reply
      case Unavailable => (document.(status := Processing), Err(NoEngine))
      case Broken => (document.(status := Processing), Err(EngineFailed))
      case Read(read) =>
        var pages := Fill(document.pages, read);
        if !StorablePages(pages) then (document, Err(ConstraintViolated))
        else (document.(pages := pages, status := HonestStatus(pages)), Ok(Filled(document.pages, read)))
  }

  /** A page that is still, text and confidence, what it was the moment it first had text. */
  ghost predicate PageKept(before: Page, after: Page) {
    && after.number == before.number
    && (HasText(before.text) ==> after == before)
    && (after.confidence.None? ==> after == before)
  }

  ghost predicate Kept(before: Document, after: Document) {
    && after.caseId == before.caseId
    && after.storageKey == before.storageKey
    && after.contentHash == before.contentHash
    && |after.pages| == |before.pages|
    && forall i :: 0 <= i < |before.pages| ==> PageKept(before.pages[i], after.pages[i])
  }

  /** The status never claims more than the pages bear out, in either direction. */
  ghost predicate StatusHonest(document: Document) {
    && (document.status == Complete ==> AllRead(document.pages))
    && (document.status == NeedsOcr ==> NeedsOcrPages(document.pages))
    && document.status in {Complete, NeedsOcr, Processing}
  }

  lemma OcrKeeps(document: Document, stored: bool, reply: EngineReply)
    ensures Kept(document, AfterOcr(document, stored, reply).0)
    ensures StatusHonest(document) ==> StatusHonest(AfterOcr(document, stored, reply).0)
  {
  }

  lemma KeptTransitively(a: Document, b: Document, c: Document)
    requires Kept(a, b) && Kept(b, c)
    ensures Kept(a, c)
  {
    forall i | 0 <= i < |a.pages| ensures PageKept(a.pages[i], c.pages[i]) {
      assert PageKept(a.pages[i], b.pages[i]);
      assert PageKept(b.pages[i], c.pages[i]);
    }
  }

  /** The last reading of a number is the one that counts. */
  lemma {:induction false} LastReadIs(reply: seq<OcrPage>, n: int, j: nat)
    requires j < |reply| && reply[j].number == n && forall k :: j < k < |reply| ==> reply[k].number != n
    ensures LastRead(reply, n) == Some(reply[j])
  {
    if j < |reply| - 1 {
      LastReadIs(reply[..|reply| - 1], n, j);
    }
  }

  lemma {:induction false} NothingRead(reply: seq<OcrPage>, n: int)
    requires forall k :: 0 <= k < |reply| ==> reply[k].number != n
    ensures LastRead(reply, n) == None
  {
    if reply != [] {
      NothingRead(reply[..|reply| - 1], n);
    }
  }

  /** A blank page the engine read takes its last reading, text and confidence; one it did not read stays blank. */
  lemma BlankPagesTakeTheirReading(page: Page, reply: seq<OcrPage>, j: nat)
    requires forall c :: c in page.text ==> IsSpace(c)
    ensures j < |reply| && reply[j].number == page.number && (forall k :: j < k < |reply| ==> reply[k].number != page.number) ==>
      FillPage(page, reply) == Page(page.number, reply[j].text, Some(reply[j].confidence))
    ensures (forall k :: 0 <= k < |reply| ==> reply[k].number != page.number) ==> FillPage(page, reply) == page
  {
    HasTextIff(page.text);
    if j < |reply| && reply[j].number == page.number && forall k :: j < k < |reply| ==> reply[k].number != page.number {
      LastReadIs(reply, page.number, j);
    }
    if forall k :: 0 <= k < |reply| ==> reply[k].number != page.number {
      NothingRead(reply, page.number);
    }
  }

  /** The page is blank and the engine read it. */
  predicate IsFilled(page: Page, reply: seq<OcrPage>) {
    !HasText(page.text) && exists k: nat :: k < |reply| && reply[k].number == page.number
  }

  function FilledPages(pages: seq<Page>, reply: seq<OcrPage>): set<nat> {
    set i: nat | i < |pages| && IsFilled(pages[i], reply)
  }

  lemma {:induction false} IsFilledIff(page: Page, reply: seq<OcrPage>)
    ensures IsFilled(page, reply) <==> !HasText(page.text) && LastRead(reply, page.number).Some?
  {
    if reply != [] {
      IsFilledIff(page, reply[..|reply| - 1]);
    }
  }

  lemma FilledInFront(pages: seq<Page>, reply: seq<OcrPage>)
    requires pages != []
    ensures var n := |pages| - 1;
      FilledPages(pages, reply) == FilledPages(pages[..n], reply) + if IsFilled(pages[n], reply) then {n} else {}
  {
    var front := pages[..|pages| - 1];
    assert forall i: nat :: i < |front| ==> front[i] == pages[i];
  }

  /** The count returned is the number of pages filled. */
  lemma {:induction false} FilledCountsEach(pages: seq<Page>, reply: seq<OcrPage>)
    ensures Filled(pages, reply) == |FilledPages(pages, reply)|
  {
    if pages != [] {
      var front, n := pages[..|pages| - 1], |pages| - 1;
      FilledCountsEach(front, reply);
      IsFilledIff(pages[n], reply);
      FilledInFront(pages, reply);
    }
  }

  /** A job succeeds exactly when the bytes are there, the engine answers, and every page ends up with a fraction or no confidence. */
  lemma OcrSucceedsIff(document: Document, stored: bool, reply: EngineReply)
    ensures AfterOcr(document, stored, reply).1.Ok? <==>
      && stored && reply.Read?
      && forall i :: 0 <= i < |document.pages| ==>
        var c := FillPage(document.pages[i], reply.pages).confidence;
        c == None || 0.0 <= c.value <= 1.0
    ensures AfterOcr(document, stored, reply).1.Ok? ==>
      var after := AfterOcr(document, stored, reply).0;
      && after.pages == Fill(document.pages, reply.pages)
      && after.status == (if forall i :: 0 <= i < |after.pages| ==> HasText(after.pages[i].text) then Complete else NeedsOcr)
      && AfterOcr(document, stored, reply).1.value == |FilledPages(document.pages, reply.pages)|
    ensures AfterOcr(document, stored, reply).1.Err? ==> AfterOcr(document, stored, reply).0.pages == document.pages
  {
    if stored && reply.Read? {
      FilledCountsEach(document.pages, reply.pages);
    }
  }

  /**
   * A passage with a non-blank quote that matched its page still matches after anything `Kept` allows, so
   * every position it highlights still spells its quote.
   */
  lemma CitedQuoteSurvives(before: Document, after: Document, page: nat, passages: seq<C.Passage>, p: C.Passage)
    requires Kept(before, after) && page < |before.pages|
    requires p in passages && forall q :: q in passages ==> C.Storable(q)
    requires C.Matches(before.pages[page].text, p) && HasText(p.quote)
    ensures after.pages[page] == before.pages[page]
    ensures C.Matches(after.pages[page].text, p)
    ensures forall i: nat :: p.start <= i < p.end ==> C.Covered(passages, i)
    ensures forall i: nat :: p.start <= i < p.end ==>
      after.pages[page].text[i] == p.quote[i - p.start]
  {
    SliceHasText(before.pages[page].text, p.start, p.end);
    assert PageKept(before.pages[page], after.pages[page]);
  }

}
