/** Text extraction from an uploaded resume (main.py, extract_text).
    The PDF and Word parsers are not modelled: an upload carries the text
    the PDF reader yields for each page of its bytes and the text the Word
    reader yields for each paragraph, and the declared media type decides
    which of the two is used. */
module Extraction {

  import opened Strings

  /** Media type that selects the PDF branch. */
  const PdfType: string := "application/pdf"

  /** Media type (OOXML word-processing document) that selects the Word branch. */
  const DocxType: string := "application/vnd.openxmlformats-officedocument.wordprocessingml.document"

  /** One uploaded file as the text pipeline sees it. */
  datatype Upload = Upload(pageTexts: seq<string>, paragraphTexts: seq<string>, contentType: string)

  /** Each paragraph followed by a line feed. */
  function Terminated(paragraphs: seq<string>): seq<string>
  {
    seq(|paragraphs|, i requires 0 <= i < |paragraphs| => paragraphs[i] + "\n")
  }

  /** The text extract_text returns for an upload. */
  function Extracted(u: Upload): string
  {
    if u.contentType == PdfType then Concat(u.pageTexts)
    else if u.contentType == DocxType then Concat(Terminated(u.paragraphTexts))
    else ""
  }

  /** extract_text: start from the empty string and append page by page
      (PDF) or paragraph by paragraph with a trailing line feed (Word);
      any other media type leaves the text empty. */
  method ExtractText(u: Upload) returns (content: string)
    ensures u.contentType == PdfType ==> content == Concat(u.pageTexts)
    ensures u.contentType == DocxType ==> content == Concat(Terminated(u.paragraphTexts))
    ensures u.contentType != PdfType && u.contentType != DocxType ==> content == ""
    ensures content == Extracted(u)
  {
    content := "";
    if u.contentType == PdfType {
      var pages := u.pageTexts;
      for k := 0 to |pages|
        invariant content == Concat(pages[..k])
      {
        assert pages[..k + 1][..k] == pages[..k];
        content := content + pages[k];
      }
      assert pages[..|pages|] == pages;
    } else if u.contentType == DocxType {
      var paragraphs := u.paragraphTexts;
      for k := 0 to |paragraphs|
        invariant content == Concat(Terminated(paragraphs[..k]))
      {
        assert Terminated(paragraphs[..k + 1])[..k] == Terminated(paragraphs[..k]);
        content := content + paragraphs[k] + "\n";
      }
      assert paragraphs[..|paragraphs|] == paragraphs;
    }
  }

  /** Terminating paragraphs adds exactly one character per paragraph. */
  lemma {:induction false} TerminatedLength(paragraphs: seq<string>)
    ensures TotalLength(Terminated(paragraphs)) == TotalLength(paragraphs) + |paragraphs|
    decreases |paragraphs|
  {
    if paragraphs != [] {
      var init := paragraphs[..|paragraphs| - 1];
      assert Terminated(paragraphs)[..|paragraphs| - 1] == Terminated(init);
      TerminatedLength(init);
    }
  }

  /** Word text length: the paragraph lengths plus one line feed each. */
  lemma WordTextLength(paragraphs: seq<string>)
    ensures |Concat(Terminated(paragraphs))| == TotalLength(paragraphs) + |paragraphs|
  {
    ConcatLength(Terminated(paragraphs));
    TerminatedLength(paragraphs);
  }

  /** Paragraph `i` of a Word document sits in the extracted text right
      after the earlier paragraphs and their line feeds, and is followed by
      a line feed of its own. */
  lemma ParagraphInPlace(paragraphs: seq<string>, i: nat)
    requires i < |paragraphs|
    ensures TotalLength(paragraphs[..i]) + i + |paragraphs[i]| < |Concat(Terminated(paragraphs))|
    ensures Concat(Terminated(paragraphs))[TotalLength(paragraphs[..i]) + i .. TotalLength(paragraphs[..i]) + i + |paragraphs[i]| + 1]
            == paragraphs[i] + "\n"
  {
    var lines := Terminated(paragraphs);
    PartInPlace(lines, i);
    assert lines[..i] == Terminated(paragraphs[..i]);
    TerminatedLength(paragraphs[..i]);
  }

  /** A PDF without pages and a Word document without paragraphs both give
      the empty text, as does any other media type. */
  lemma EmptyDocumentGivesEmptyText(u: Upload)
    requires (u.contentType == PdfType && u.pageTexts == [])
          || (u.contentType == DocxType && u.paragraphTexts == [])
          || (u.contentType != PdfType && u.contentType != DocxType)
    ensures Extracted(u) == ""
  {
  }
}
