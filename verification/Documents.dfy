/** Document and page rows, and the loop that reads a PDF's text layer. */
module Documents {
  import opened Wrappers
  import opened Text

  newtype Byte = x: int | 0 <= x < 256
  type Bytes = seq<Byte>

  type UserId = nat
  type DocumentId = nat

  /** A case id in its textual UUID form, which contains no slash. */
  type CaseId = s: string | '/' !in s witness ""

  datatype OcrStatus = Pending | Processing | NeedsOcr | Complete | Failed

  /** `confidence` is None when the text was read directly rather than measured by OCR. */
  datatype Page = Page(number: nat, text: string, confidence: Option<real>)

  datatype Document = Document(
    caseId: CaseId, storageKey: string, contentHash: string, status: OcrStatus, pages: seq<Page>)

  const DEFAULT_MAX_PAGES := 2000
  const DEFAULT_MAX_CHARS_PER_PAGE := 200_000

  datatype PdfError = NotAPdf | EncryptedPdf | UnreadablePdf | TooManyPages

  /**
   * What the PDF library answers for some bytes. A page whose text layer is missing or cannot be
   * extracted is None. `unlocked` is None when trying the empty password raises.
   */
  datatype PdfReader = PdfReader(
    hasMagic: bool, opens: bool, encrypted: bool, unlocked: Option<bool>, countable: bool, pages: seq<Option<string>>)

  /** What a caller lets through; ingest uses the defaults. */
  datatype Caps = Caps(pages: nat, charsPerPage: nat)

  const DEFAULT_CAPS := Caps(DEFAULT_MAX_PAGES, DEFAULT_MAX_CHARS_PER_PAGE)

  /** A page as ingest stores it: numbered from one, cut to the character cap, confidence unmeasured. */
  function IngestedPage(reader: PdfReader, index: nat, caps: Caps): Page
    requires index < |reader.pages|
  {
    var text := match reader.pages[index] case Some(t) => t case None => "";
    Page(index + 1, if |text| <= caps.charsPerPage then text else text[..caps.charsPerPage], None)
  }

  /** A readable page within the cap keeps its text exactly; a longer one keeps its beginning; an unreadable one is blank. */
  lemma PagesKeepTheirText(reader: PdfReader, index: nat, caps: Caps)
    requires index < |reader.pages|
    ensures var page, read := IngestedPage(reader, index, caps), reader.pages[index];
      && page.number == index + 1 && page.confidence == None
      && (read.None? ==> page.text == "")
      && (read.Some? && |read.value| <= caps.charsPerPage ==> page.text == read.value)
      && (read.Some? && |read.value| > caps.charsPerPage ==> page.text <= read.value && |page.text| == caps.charsPerPage)
  {
  }

  /** A document is read exactly when it is a PDF that opens, unlocked or unlocking, with one to the cap's number of pages. */
  lemma ReadIff(reader: PdfReader, caps: Caps)
    ensures Refusal(reader, caps) == None <==>
      && reader.hasMagic && reader.opens && reader.countable && 1 <= |reader.pages| <= caps.pages
      && (reader.encrypted ==> reader.unlocked == Some(true))
  {
  }

  /** The exception `extract_text_layer` raises, if any. */
  function Refusal(reader: PdfReader, caps: Caps): Option<PdfError> {
    if !reader.hasMagic then Some(NotAPdf)
    else if !reader.opens then Some(UnreadablePdf)
    else if reader.encrypted && reader.unlocked != Some(true) then Some(EncryptedPdf)
    else if !reader.countable then Some(UnreadablePdf)
    else if |reader.pages| > caps.pages then Some(TooManyPages)
    else if |reader.pages| == 0 then Some(UnreadablePdf)
    else None
  }

  /** Every page is accounted for in order, and one unreadable page never costs another its text. */
  method ExtractTextLayer(reader: PdfReader, caps: Caps) returns (r: Result<seq<Page>, PdfError>)
    ensures r.Err? <==> Refusal(reader, caps).Some?
    ensures r.Err? ==> Refusal(reader, caps) == Some(r.error)
    ensures r.Ok? ==> r.value == seq(|reader.pages|, i requires 0 <= i < |reader.pages| => IngestedPage(reader, i, caps))
  {
    if !reader.hasMagic {
      return Err(NotAPdf);
    }
    if !reader.opens {
      return Err(UnreadablePdf);
    }
    if reader.encrypted {
      match reader.unlocked {
        case None => return Err(EncryptedPdf);
        case Some(unlocked) =>
          if !unlocked {
            return Err(EncryptedPdf);
          }
      }
    }
    if !reader.countable {
      return Err(UnreadablePdf);
    }
    if |reader.pages| > caps.pages {
      return Err(TooManyPages);
    }
    var pages: seq<Page> := [];
    for index := 0 to |reader.pages|
      invariant |pages| == index
      invariant forall i :: 0 <= i < index ==> pages[i] == IngestedPage(reader, i, caps)
    {
      var text := "";
      if reader.pages[index].Some? {
        text := reader.pages[index].value;
      }
      if |text| > caps.charsPerPage {
        text := text[..caps.charsPerPage];
      }
      pages := pages + [Page(index + 1, text, None)];
    }
    if pages == [] {
      return Err(UnreadablePdf);
    }
    return Ok(pages);
  }

  /** Every page carries text. */
  predicate AllRead(pages: seq<Page>) {
    forall i :: 0 <= i < |pages| ==> HasText(pages[i].text)
  }

  /** `ExtractionResult.needs_ocr`: any page without text, not all of them. */
  predicate NeedsOcrPages(pages: seq<Page>) {
    exists i :: 0 <= i < |pages| && !HasText(pages[i].text)
  }

}
