/** Text extraction by declared MIME type (document_processor/extractor.py).
    The PDF and DOCX parsers and the UTF-8 decoder are libraries; they are
    given as functions of the file bytes. */
module Extractor {
  import opened Wrappers

  type Bytes = seq<bv8>

  const PdfType: string := "application/pdf"
  const DocxType: string := "application/vnd.openxmlformats-officedocument.wordprocessingml.document"
  const TextType: string := "text/plain"

  /** The exceptions the extractor raises. */
  datatype ExtractError =
    | UnsupportedFileType(fileType: string)  // ValueError("Unsupported file type: ...")
    | PdfExtractionFailed                    // ValueError("Failed to extract text from PDF")
    | DocxUnavailable                        // ValueError("python-docx is required ...")
    | DocxExtractionFailed                   // ValueError("Failed to extract text from DOCX")
    | DecodeFailed(reason: string)           // UnicodeDecodeError from bytes.decode

  /** One PDF page as the reader yields it: the result of `extract_text()`
      (`None` when the page has no text layer), or a failure while reading it. */
  datatype PdfPage = PageText(text: Option<string>) | PageFailed

  /** The parsing libraries. `pdfPages` is `None` when the reader cannot open
      the bytes; `docxParagraphs` is `None` when `docx.Document` raises;
      `docxAvailable` says whether python-docx could be imported. */
  datatype Parsers = Parsers(
    pdfPages: Bytes -> Option<seq<PdfPage>>,
    docxAvailable: bool,
    docxParagraphs: Bytes -> Option<seq<string>>,
    decodeUtf8: Bytes -> Result<string, string>)

  /** `page.extract_text() or ""` */
  function PageString(p: PdfPage): string
    requires p.PageText?
  {
    match p.text
    case Some(t) => t
    case None => ""
  }

  /** Every page could be read. */
  predicate AllPagesRead(pages: seq<PdfPage>)
  {
    forall i :: 0 <= i < |pages| ==> pages[i].PageText?
  }

  /** The page texts concatenated in page order. */
  function ConcatPages(pages: seq<PdfPage>): string
    requires AllPagesRead(pages)
  {
    if pages == [] then ""
    else ConcatPages(pages[..|pages| - 1]) + PageString(pages[|pages| - 1])
  }

  /** The paragraph texts, each followed by a newline. */
  function ConcatParagraphs(paragraphs: seq<string>): (r: string)
    ensures |r| >= |paragraphs|
  {
    if paragraphs == [] then ""
    else ConcatParagraphs(paragraphs[..|paragraphs| - 1]) + paragraphs[|paragraphs| - 1] + "\n"
  }

  function ExtractPdf(content: Bytes, parsers: Parsers): (r: Result<string, ExtractError>)
    ensures r.Failure? ==> r.error == PdfExtractionFailed
  {
    match parsers.pdfPages(content)
    case None => Failure(PdfExtractionFailed)
    case Some(pages) =>
      if AllPagesRead(pages) then Success(ConcatPages(pages)) else Failure(PdfExtractionFailed)
  }

  function ExtractDocx(content: Bytes, parsers: Parsers): (r: Result<string, ExtractError>)
    ensures r.Failure? ==> r.error == DocxUnavailable || r.error == DocxExtractionFailed
  {
    if !parsers.docxAvailable then Failure(DocxUnavailable)
    else match parsers.docxParagraphs(content)
      case None => Failure(DocxExtractionFailed)
      case Some(paragraphs) => Success(ConcatParagraphs(paragraphs))
  }

  function ExtractTxt(content: Bytes, parsers: Parsers): (r: Result<string, ExtractError>)
    ensures r.Success? <==> parsers.decodeUtf8(content).Success?
    ensures r.Success? ==> r.value == parsers.decodeUtf8(content).value
  {
    match parsers.decodeUtf8(content)
    case Success(s) => Success(s)
    case Failure(e) => Failure(DecodeFailed(e))
  }

  /** `extract_text(file_content, file_type)`: dispatch on the declared type. */
  function ExtractText(content: Bytes, fileType: string, parsers: Parsers): (r: Result<string, ExtractError>)
    ensures (r.Failure? && r.error.UnsupportedFileType?) <==> fileType !in {PdfType, DocxType, TextType}
    ensures r.Failure? && r.error.UnsupportedFileType? ==> r.error.fileType == fileType
    ensures fileType == PdfType ==> (r.Failure? ==> r.error == PdfExtractionFailed)
    ensures fileType == DocxType ==> (r.Failure? ==> r.error in {DocxUnavailable, DocxExtractionFailed})
    ensures fileType == TextType ==> (r.Success? <==> parsers.decodeUtf8(content).Success?)
    ensures fileType == TextType && r.Success? ==> r.value == parsers.decodeUtf8(content).value
  {
    if fileType == PdfType then ExtractPdf(content, parsers)
    else if fileType == DocxType then ExtractDocx(content, parsers)
    else if fileType == TextType then ExtractTxt(content, parsers)
    else Failure(UnsupportedFileType(fileType))
  }

  /** `extract_text_from_pdf`: pages are appended in order; any failure of
      the reader or of one page is reported as one error and no text. */
  method ExtractTextFromPdf(content: Bytes, parsers: Parsers) returns (r: Result<string, ExtractError>)
    ensures r == ExtractPdf(content, parsers)
    ensures r.Failure? ==> r.error == PdfExtractionFailed
    ensures r.Success? <==> parsers.pdfPages(content).Some? && AllPagesRead(parsers.pdfPages(content).value)
  {
    var reader := parsers.pdfPages(content);
    if reader.None? {
      return Failure(PdfExtractionFailed);
    }
    var pages := reader.value;
    var text := "";
    var i := 0;
    while i < |pages|
      invariant 0 <= i <= |pages|
      invariant AllPagesRead(pages[..i])
      invariant text == ConcatPages(pages[..i])
    {
      if pages[i].PageFailed? {
        return Failure(PdfExtractionFailed);
      }
      text := text + PageString(pages[i]);
      assert pages[..i + 1][..i] == pages[..i];
      i := i + 1;
    }
    assert pages[..i] == pages;
    return Success(text);
  }

  /** `extract_text_from_docx`: each paragraph's text followed by a newline. */
  method ExtractTextFromDocx(content: Bytes, parsers: Parsers) returns (r: Result<string, ExtractError>)
    ensures r == ExtractDocx(content, parsers)
    ensures !parsers.docxAvailable ==> r == Failure(DocxUnavailable)
    ensures r.Success? <==> parsers.docxAvailable && parsers.docxParagraphs(content).Some?
  {
    if !parsers.docxAvailable {
      return Failure(DocxUnavailable);
    }
    var document := parsers.docxParagraphs(content);
    if document.None? {
      return Failure(DocxExtractionFailed);
    }
    var paragraphs := document.value;
    var text := "";
    var i := 0;
    while i < |paragraphs|
      invariant 0 <= i <= |paragraphs|
      invariant text == ConcatParagraphs(paragraphs[..i])
    {
      text := text + paragraphs[i] + "\n";
      assert paragraphs[..i + 1][..i] == paragraphs[..i];
      i := i + 1;
    }
    assert paragraphs[..i] == paragraphs;
    return Success(text);
  }

  /** Page texts are concatenated in order: the text of a document made of
      two runs of pages is the text of the first run followed by the second. */
  lemma {:induction false} ConcatPagesAppend(a: seq<PdfPage>, b: seq<PdfPage>)
    requires AllPagesRead(a) && AllPagesRead(b)
    ensures AllPagesRead(a + b)
    ensures ConcatPages(a + b) == ConcatPages(a) + ConcatPages(b)
    decreases |b|
  {
    if b == [] {
      assert a + b == a;
    } else {
      var b' := b[..|b| - 1];
      var last := b[|b| - 1];
      assert AllPagesRead(b') by {
        forall i | 0 <= i < |b'|
          ensures b'[i].PageText?
        {
          assert b'[i] == b[i];
        }
      }
      ConcatPagesAppend(a, b');
      assert (a + b)[..|a + b| - 1] == a + b' && (a + b)[|a + b| - 1] == last;
      assert ConcatPages(b) == ConcatPages(b') + PageString(last);
      assert ConcatPages(a + b) == ConcatPages(a + b') + PageString(last);
    }
  }

  /** A page without a text layer contributes nothing. */
  lemma {:induction false} EmptyPagesAddNothing(pages: seq<PdfPage>)
    requires forall i :: 0 <= i < |pages| ==> pages[i] == PageText(None)
    ensures AllPagesRead(pages) && ConcatPages(pages) == ""
  {
    if pages != [] {
      EmptyPagesAddNothing(pages[..|pages| - 1]);
    }
  }

  /** The DOCX text has one newline per paragraph and none elsewhere, when
      the paragraphs themselves hold no newline. */
  lemma {:induction false} DocxNewlines(paragraphs: seq<string>)
    requires forall i :: 0 <= i < |paragraphs| ==> '\n' !in paragraphs[i]
    ensures multiset(ConcatParagraphs(paragraphs))['\n'] == |paragraphs|
  {
    if paragraphs != [] {
      var init := paragraphs[..|paragraphs| - 1];
      DocxNewlines(init);
      var last := paragraphs[|paragraphs| - 1];
      assert ConcatParagraphs(paragraphs) == ConcatParagraphs(init) + last + "\n";
      assert multiset(last)['\n'] == 0;
    }
  }

  /** A one-paragraph DOCX reads back as that paragraph plus a newline, so
      its trimmed form is the paragraph. */
  lemma OneParagraph(content: Bytes, parsers: Parsers, p: string)
    requires parsers.docxAvailable && parsers.docxParagraphs(content) == Some([p])
    ensures ExtractText(content, DocxType, parsers) == Success(p + "\n")
  {
    assert [p][..0] == [];
    assert ConcatParagraphs([p]) == "" + p + "\n";
    assert DocxType != PdfType by { assert |DocxType| != |PdfType|; }
    assert ConcatParagraphs([p]) == p + "\n";
    var d := parsers.docxParagraphs(content);
    assert d.value == [p];
    assert ExtractDocx(content, parsers) == Success(ConcatParagraphs(d.value));
  }
}
